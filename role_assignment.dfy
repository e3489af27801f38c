/** The role-assignment steps of `startGame` in App.tsx: the history-weighted
    draw of impostors without replacement, the impostor-history update, the
    Fisher–Yates shuffle of the other indices and the writing of roles and
    words into the new player list. */
module RoleAssignment {
  import opened GameTypes
  import Decimal

  /** `impostorHistory`: per player name, how many games they were impostor. */
  type History = map<string, nat>

  function Min(a: int, b: int): int { if a <= b then a else b }
  function Max(a: int, b: int): int { if a >= b then a else b }

  ghost predicate Distinct<T>(s: seq<T>)
  {
    forall i, j :: 0 <= i < j < |s| ==> s[i] != s[j]
  }

  lemma {:induction false} DistinctMultiplicity<T>(s: seq<T>)
    ensures Distinct(s) <==> forall x :: multiset(s)[x] <= 1
  {
    if s != [] {
      DistinctMultiplicity(s[1..]);
      assert s == [s[0]] + s[1..];
      if Distinct(s) {
        assert Distinct(s[1..]) by {
          forall i, j | 0 <= i < j < |s[1..]| ensures s[1..][i] != s[1..][j] {
            assert s[1..][i] == s[i + 1] && s[1..][j] == s[j + 1];
          }
        }
        assert s[0] !in s[1..] by {
          forall k | 0 <= k < |s[1..]| ensures s[1..][k] != s[0] { assert s[1..][k] == s[k + 1]; }
        }
      }
      if forall x :: multiset(s)[x] <= 1 {
        assert forall x :: multiset(s[1..])[x] <= 1 by {
          forall x ensures multiset(s[1..])[x] <= 1 { assert multiset(s)[x] == multiset([s[0]])[x] + multiset(s[1..])[x]; }
        }
        assert multiset(s[1..])[s[0]] == 0 by {
          assert multiset(s)[s[0]] == 1 + multiset(s[1..])[s[0]];
        }
        forall i, j | 0 <= i < j < |s| ensures s[i] != s[j] {
          if i == 0 {
            assert s[j] == s[1..][j - 1];
            assert s[j] in multiset(s[1..]);
          } else {
            assert s[i] == s[1..][i - 1] && s[j] == s[1..][j - 1];
          }
        }
      }
    }
  }

  lemma SubMultisetDistinct<T>(s: seq<T>, t: seq<T>)
    requires multiset(s) <= multiset(t) && Distinct(t)
    ensures Distinct(s)
  {
    DistinctMultiplicity(t);
    assert forall x :: multiset(s)[x] <= multiset(t)[x];
    DistinctMultiplicity(s);
  }

  /** The index the draw lands on: the injected choice when it names a remaining
      candidate, otherwise 0, the value `chosenIdx` keeps when no cumulative
      weight reaches the random threshold. */
  function ChosenIdx(picks: seq<nat>, c: nat, remaining: nat): (k: nat)
    ensures remaining > 0 ==> k < remaining
  {
    if c < |picks| && picks[c] < remaining then picks[c] else 0
  }

  /** `weightedSelect`: up to `count` indices drawn from `pool` without
      replacement; the c-th draw takes the candidate `picks[c]` of the list that
      remains. The weights steer which choice is made and are not modelled. */
  method WeightedSelect(count: int, pool: seq<nat>, picks: seq<nat>) returns (selected: seq<nat>)
    ensures |selected| == Min(Max(count, 0), |pool|)
    ensures multiset(selected) <= multiset(pool)
    ensures Distinct(pool) ==> Distinct(selected)
  {
    selected := [];
    var remaining := pool;
    var c := 0;
    while c < count && |remaining| > 0
      invariant 0 <= c <= Max(count, 0) && c <= |pool|
      invariant |selected| == c && |remaining| == |pool| - c
      invariant multiset(selected) + multiset(remaining) == multiset(pool)
    {
      var chosenIdx := ChosenIdx(picks, c, |remaining|);
      selected := selected + [remaining[chosenIdx]];
      assert remaining == remaining[..chosenIdx] + [remaining[chosenIdx]] + remaining[chosenIdx + 1..];
      remaining := remaining[..chosenIdx] + remaining[chosenIdx + 1..];
      c := c + 1;
    }
    if Distinct(pool) {
      SubMultisetDistinct(selected, pool);
    }
  }

  /** `(history[name] || 0)`. */
  function Times(h: History, name: string): nat
  {
    if name in h then h[name] else 0
  }

  /** The names at the given indices. */
  function NamesAt(names: seq<string>, idx: seq<nat>): (r: seq<string>)
    requires forall k :: 0 <= k < |idx| ==> idx[k] < |names|
    ensures |r| == |idx| && forall k :: 0 <= k < |idx| ==> r[k] == names[idx[k]]
  {
    seq(|idx|, k requires 0 <= k < |idx| => names[idx[k]])
  }

  /** The `newHistory` loop of `startGame`: each drawn impostor's count goes up
      by one, once per time the name was drawn; no other entry changes. */
  method BumpHistory(history: History, names: seq<string>, impostorIndices: seq<nat>) returns (newHistory: History)
    requires forall k :: 0 <= k < |impostorIndices| ==> impostorIndices[k] < |names|
    ensures forall n :: n in newHistory <==> n in history || n in NamesAt(names, impostorIndices)
    ensures forall n :: Times(newHistory, n) == Times(history, n) + multiset(NamesAt(names, impostorIndices))[n]
  {
    newHistory := history;
    var k := 0;
    while k < |impostorIndices|
      invariant 0 <= k <= |impostorIndices|
      invariant forall n :: n in newHistory <==> n in history || n in NamesAt(names, impostorIndices[..k])
      invariant forall n :: Times(newHistory, n) == Times(history, n) + multiset(NamesAt(names, impostorIndices[..k]))[n]
    {
      var name := names[impostorIndices[k]];
      ghost var drawn := NamesAt(names, impostorIndices[..k]);
      assert NamesAt(names, impostorIndices[..k + 1]) == drawn + [name];
      newHistory := newHistory[name := Times(newHistory, name) + 1];
      k := k + 1;
    }
    assert impostorIndices[..k] == impostorIndices;
  }

  /** With distinct names and distinct indices, every drawn name gains exactly one. */
  lemma BumpedOnce(history: History, newHistory: History, names: seq<string>, impostorIndices: seq<nat>)
    requires forall k :: 0 <= k < |impostorIndices| ==> impostorIndices[k] < |names|
    requires Distinct(names) && Distinct(impostorIndices)
    requires forall n :: Times(newHistory, n) == Times(history, n) + multiset(NamesAt(names, impostorIndices))[n]
    ensures forall k :: 0 <= k < |impostorIndices| ==>
              Times(newHistory, names[impostorIndices[k]]) == Times(history, names[impostorIndices[k]]) + 1
    ensures forall n :: n !in NamesAt(names, impostorIndices) ==> Times(newHistory, n) == Times(history, n)
  {
    var drawn := NamesAt(names, impostorIndices);
    assert Distinct(drawn) by {
      forall i, j | 0 <= i < j < |drawn| ensures drawn[i] != drawn[j] {
        assert impostorIndices[i] != impostorIndices[j];
      }
    }
    DistinctMultiplicity(drawn);
    forall k | 0 <= k < |impostorIndices|
      ensures Times(newHistory, names[impostorIndices[k]]) == Times(history, names[impostorIndices[k]]) + 1
    {
      assert drawn[k] in multiset(drawn);
    }
  }

  /** `allIndices.filter(idx => !impostorIndices.includes(idx))`, in increasing order. */
  function OtherIndices(n: nat, impostorIndices: seq<nat>): (r: seq<nat>)
    ensures forall i: nat :: i in r <==> i < n && i !in impostorIndices
    ensures forall k :: 0 <= k < |r| ==> r[k] < n
    ensures forall a, b :: 0 <= a < b < |r| ==> r[a] < r[b]
  {
    if n == 0 then []
    else
      var r := OtherIndices(n - 1, impostorIndices);
      if n - 1 in impostorIndices then r else r + [n - 1]
  }

  /** `[a[i], a[j]] = [a[j], a[i]]` on a sequence. */
  function Swap(s: seq<nat>, i: nat, j: nat): (r: seq<nat>)
    requires i < |s| && j < |s|
    ensures |r| == |s|
  {
    s[i := s[j]][j := s[i]]
  }

  lemma SwapPermutes(s: seq<nat>, i: nat, j: nat)
    requires i < |s| && j < |s|
    ensures multiset(Swap(s, i, j)) == multiset(s)
  {
    var m := s[i := s[j]];
    assert multiset(m) == multiset(s) - multiset{s[i]} + multiset{s[j]};
    assert multiset(m[j := s[i]]) == multiset(m) - multiset{m[j]} + multiset{s[i]};
  }

  /** The Fisher–Yates loop from position i down to 1: position i is swapped
      with `Math.floor(us[t] * (i + 1))`, t counting the iterations from 0. */
  function FisherYates(s: seq<nat>, us: seq<Unit>, i: nat): (r: seq<nat>)
    requires i < |s| && |us| >= |s|
    decreases i
  {
    if i == 0 then s
    else FisherYates(Swap(s, i, Scale(us[|s| - 1 - i], i + 1)), us, i - 1)
  }

  /** The shuffle only reorders: same length, same elements, same multiplicities. */
  lemma {:induction false} FisherYatesPermutes(s: seq<nat>, us: seq<Unit>, i: nat)
    requires i < |s| && |us| >= |s|
    ensures |FisherYates(s, us, i)| == |s|
    ensures multiset(FisherYates(s, us, i)) == multiset(s)
    decreases i
  {
    if i > 0 {
      var j := Scale(us[|s| - 1 - i], i + 1);
      SwapPermutes(s, i, j);
      FisherYatesPermutes(Swap(s, i, j), us, i - 1);
    }
  }

  lemma FisherYatesStep(s: seq<nat>, us: seq<Unit>, i: nat)
    requires 0 < i < |s| && |us| >= |s|
    ensures FisherYates(s, us, i) == FisherYates(Swap(s, i, Scale(us[|s| - 1 - i], i + 1)), us, i - 1)
  {
  }

  /** The destructuring swap `[a[i], a[j]] = [a[j], a[i]]`. */
  method SwapInPlace(a: array<nat>, i: nat, j: nat)
    requires i < a.Length && j < a.Length
    modifies a
    ensures a[..] == Swap(old(a[..]), i, j)
  {
    a[i], a[j] := a[j], a[i];
  }

  /** The in-place swap loop over `remainingIndices`. */
  method Shuffle(a: array<nat>, us: seq<Unit>)
    requires |us| >= a.Length
    modifies a
    ensures a.Length > 0 ==> a[..] == FisherYates(old(a[..]), us, a.Length - 1)
    ensures multiset(a[..]) == old(multiset(a[..]))
  {
    if a.Length == 0 { return; }
    ghost var initial := a[..];
    ghost var target := FisherYates(initial, us, a.Length - 1);
    var i := a.Length - 1;
    while i > 0
      invariant 0 <= i < a.Length
      invariant FisherYates(a[..], us, i) == target
    {
      var j := Scale(us[a.Length - 1 - i], i + 1);
      FisherYatesStep(a[..], us, i);
      SwapInPlace(a, i, j);
      i := i - 1;
    }
    FisherYatesPermutes(initial, us, a.Length - 1);
  }

  /** The non-impostor indices in shuffled order, through a local array as in the source. */
  method ShuffledOthers(n: nat, impostorIndices: seq<nat>, us: seq<Unit>) returns (order: seq<nat>)
    requires |us| >= n
    ensures multiset(order) == multiset(OtherIndices(n, impostorIndices))
    ensures forall i: nat :: i in order <==> i < n && i !in impostorIndices
    ensures Distinct(order)
  {
    var others := OtherIndices(n, impostorIndices);
    assert |others| <= n by { OtherIndicesBound(n, impostorIndices); }
    var a := new nat[|others|](k requires 0 <= k < |others| => others[k]);
    assert a[..] == others;
    Shuffle(a, us);
    order := a[..];
    assert forall i :: i in order <==> i in multiset(order);
    assert Distinct(others);
    SubMultisetDistinct(order, others);
  }

  lemma {:induction false} OtherIndicesBound(n: nat, impostorIndices: seq<nat>)
    ensures |OtherIndices(n, impostorIndices)| <= n
  {
    if n > 0 { OtherIndicesBound(n - 1, impostorIndices); }
  }

  /** The id of the i-th player: `p-${i}`. */
  function PlayerId(i: nat): string
  {
    "p-" + Decimal.NatToString(i)
  }

  lemma PlayerIdInjective(i: nat, j: nat)
    requires PlayerId(i) == PlayerId(j)
    ensures i == j
  {
    assert PlayerId(i)[2..] == Decimal.NatToString(i);
    assert PlayerId(j)[2..] == Decimal.NatToString(j);
    Decimal.NatToStringInjective(i, j);
  }

  /** The undercover indices: the first `undercoverCount` of the shuffled order, or all of it. */
  function UndercoverIndices(order: seq<nat>, undercoverCount: int): seq<nat>
  {
    order[..Min(Max(undercoverCount, 0), |order|)]
  }

  /** The role index i ends with: the undercover write comes last and wins,
      then the impostor write, else the citizen the list was created with. */
  function RoleOf(i: nat, impostorIndices: seq<nat>, undercover: seq<nat>): Role
  {
    if i in undercover then Undercover else if i in impostorIndices then Impostor else Citizen
  }

  /** The word that goes with each role. */
  function WordOf(role: Role, secretWord: string, undercoverWord: string): Option<string>
  {
    match role
    case Citizen => Some(secretWord)
    case Undercover => Some(undercoverWord)
    case Impostor => None
  }

  /** The player list `startGame` builds and then edits in place. */
  method AssignRoles(names: seq<string>, impostorIndices: seq<nat>, order: seq<nat>, undercoverCount: int,
                     secretWord: string, undercoverWord: string)
    returns (players: seq<Player>)
    requires forall k :: 0 <= k < |impostorIndices| ==> impostorIndices[k] < |names|
    requires forall k :: 0 <= k < |order| ==> order[k] < |names|
    ensures |players| == |names|
    ensures forall i :: 0 <= i < |names| ==>
              var role := RoleOf(i, impostorIndices, UndercoverIndices(order, undercoverCount));
              players[i] == Player(PlayerId(i), names[i], role, WordOf(role, secretWord, undercoverWord), false)
  {
    var newPlayers := new Player[|names|](i requires 0 <= i < |names| =>
      Player(PlayerId(i), names[i], Citizen, Some(secretWord), false));
    var k := 0;
    while k < |impostorIndices|
      invariant 0 <= k <= |impostorIndices|
      invariant forall i :: 0 <= i < |names| ==>
                  newPlayers[i] == if i in impostorIndices[..k]
                                   then Player(PlayerId(i), names[i], Impostor, None, false)
                                   else Player(PlayerId(i), names[i], Citizen, Some(secretWord), false)
    {
      var idx := impostorIndices[k];
      assert impostorIndices[..k + 1] == impostorIndices[..k] + [idx];
      newPlayers[idx] := newPlayers[idx].(role := Impostor, word := None);
      k := k + 1;
    }
    assert impostorIndices[..k] == impostorIndices;
    var count := 0;
    while count < undercoverCount
      invariant 0 <= count <= Max(undercoverCount, 0)
      invariant count <= |order|
      invariant forall i :: 0 <= i < |names| ==>
                  var role := RoleOf(i, impostorIndices, order[..count]);
                  newPlayers[i] == Player(PlayerId(i), names[i], role, WordOf(role, secretWord, undercoverWord), false)
    {
      if count >= |order| { break; }
      var idx := order[count];
      assert order[..count + 1] == order[..count] + [idx];
      newPlayers[idx] := newPlayers[idx].(role := Undercover, word := Some(undercoverWord));
      count := count + 1;
    }
    assert order[..count] == UndercoverIndices(order, undercoverCount);
    players := newPlayers[..];
  }

  /** The indices that end up with role r. */
  function RoleIndices(n: nat, impostorIndices: seq<nat>, undercover: seq<nat>, r: Role): set<nat>
  {
    set i: nat | i < n && RoleOf(i, impostorIndices, undercover) == r
  }

  lemma DistinctTail(s: seq<nat>)
    requires s != [] && Distinct(s)
    ensures Distinct(s[1..]) && s[0] !in s[1..]
  {
    var rest := s[1..];
    forall i, j | 0 <= i < j < |rest| ensures rest[i] != rest[j] {
      assert rest[i] == s[i + 1] && rest[j] == s[j + 1];
    }
    forall k | 0 <= k < |rest| ensures rest[k] != s[0] { assert rest[k] == s[k + 1]; }
  }

  /** The elements of a sequence of indices, as a set. */
  function SetOf(s: seq<nat>): (r: set<nat>)
    ensures forall x :: x in r <==> x in s
  {
    set x | x in s
  }

  lemma {:induction false} DistinctCard(s: seq<nat>)
    requires Distinct(s)
    ensures |SetOf(s)| == |s|
  {
    if s != [] {
      DistinctTail(s);
      DistinctCard(s[1..]);
      assert s == [s[0]] + s[1..];
      assert SetOf(s) == SetOf(s[1..]) + {s[0]};
    }
  }

  /** The indices 0 .. n-1 in order. */
  function Indices(n: nat): (r: seq<nat>)
    ensures |r| == n && forall i :: 0 <= i < n ==> r[i] == i
  {
    seq(n, i requires 0 <= i < n => i)
  }

  /** With distinct impostor indices below n and a shuffled order holding the
      other indices once each, exactly |impostorIndices| players are impostors
      and `min(undercoverCount, n - |impostorIndices|)` (never below 0) are undercover. */
  lemma RolesDrawn(n: nat, impostorIndices: seq<nat>, order: seq<nat>, undercoverCount: int)
    requires forall k :: 0 <= k < |impostorIndices| ==> impostorIndices[k] < n
    requires Distinct(impostorIndices)
    requires forall i: nat :: i in order <==> i < n && i !in impostorIndices
    requires Distinct(order)
    ensures |RoleIndices(n, impostorIndices, UndercoverIndices(order, undercoverCount), Impostor)| == |impostorIndices|
    ensures |RoleIndices(n, impostorIndices, UndercoverIndices(order, undercoverCount), Undercover)|
            == Min(Max(undercoverCount, 0), n - |impostorIndices|)
  {
    var under := UndercoverIndices(order, undercoverCount);
    var imp := SetOf(impostorIndices);
    var ord := SetOf(order);
    var range := SetOf(Indices(n));
    assert forall x :: x in under ==> x in order;
    assert RoleIndices(n, impostorIndices, under, Impostor) == imp;
    DistinctCard(impostorIndices);
    assert Distinct(under) by {
      forall i, j | 0 <= i < j < |under| ensures under[i] != under[j] {
        assert under[i] == order[i] && under[j] == order[j];
      }
    }
    forall x: nat ensures x in RoleIndices(n, impostorIndices, under, Undercover) <==> x in under {
      if x in under { assert x in order; }
    }
    assert RoleIndices(n, impostorIndices, under, Undercover) == SetOf(under);
    DistinctCard(under);
    DistinctCard(order);
    DistinctCard(Indices(n));
    forall x: nat ensures x in ord <==> x in range && x !in imp {
      if x < n { assert Indices(n)[x] == x; }
    }
    assert ord == range - imp;
    assert imp <= range by {
      forall x | x in imp ensures x in range { assert Indices(n)[x] == x; }
    }
    assert range == (range - imp) + imp;
  }

  /** With distinct names, the history rises by one exactly for the players
      who end up impostors. */
  lemma DrawnGainOne(history: History, newHistory: History, names: seq<string>, impostorIndices: seq<nat>,
                     undercover: seq<nat>)
    requires forall k :: 0 <= k < |impostorIndices| ==> impostorIndices[k] < |names|
    requires Distinct(names) && Distinct(impostorIndices)
    requires forall x :: x in undercover ==> x !in impostorIndices
    requires forall n :: Times(newHistory, n) == Times(history, n) + multiset(NamesAt(names, impostorIndices))[n]
    ensures forall i :: 0 <= i < |names| ==>
              Times(newHistory, names[i]) ==
              Times(history, names[i]) + (if RoleOf(i, impostorIndices, undercover) == Impostor then 1 else 0)
  {
    BumpedOnce(history, newHistory, names, impostorIndices);
    forall i | 0 <= i < |names|
      ensures Times(newHistory, names[i]) ==
              Times(history, names[i]) + (if RoleOf(i, impostorIndices, undercover) == Impostor then 1 else 0)
    {
      if i in impostorIndices {
        var k :| 0 <= k < |impostorIndices| && impostorIndices[k] == i;
      } else {
        forall k | 0 <= k < |impostorIndices| ensures NamesAt(names, impostorIndices)[k] != names[i] {
          assert impostorIndices[k] != i;
        }
      }
    }
  }
  /** The positions holding a player of the given role. */
  function WithRole(ps: seq<Player>, r: Role): set<nat>
  {
    set i: nat | i < |ps| && ps[i].role == r
  }

  /** `weightedSelect` over all indices, then the history update. */
  method DrawImpostors(names: seq<string>, impostorCount: int, history: History, picks: seq<nat>)
    returns (impostorIndices: seq<nat>, newHistory: History)
    ensures |impostorIndices| == Min(Max(impostorCount, 0), |names|)
    ensures Distinct(impostorIndices)
    ensures forall k :: 0 <= k < |impostorIndices| ==> impostorIndices[k] < |names|
    ensures forall n :: Times(newHistory, n) == Times(history, n) + multiset(NamesAt(names, impostorIndices))[n]
  {
    var allIndices := Indices(|names|);
    impostorIndices := WeightedSelect(impostorCount, allIndices, picks);
    forall k | 0 <= k < |impostorIndices| ensures impostorIndices[k] < |names| {
      assert impostorIndices[k] in multiset(allIndices);
    }
    newHistory := BumpHistory(history, names, impostorIndices);
  }

  /** What the dealt players look like, given how the indices were drawn. */
  lemma DealtPlayers(players: seq<Player>, names: seq<string>, impostorIndices: seq<nat>, order: seq<nat>,
                     undercoverCount: int, secretWord: string, undercoverWord: string)
    requires forall k :: 0 <= k < |impostorIndices| ==> impostorIndices[k] < |names|
    requires Distinct(impostorIndices)
    requires forall i: nat :: i in order <==> i < |names| && i !in impostorIndices
    requires Distinct(order)
    requires |players| == |names|
    requires forall i :: 0 <= i < |names| ==>
               var role := RoleOf(i, impostorIndices, UndercoverIndices(order, undercoverCount));
               players[i] == Player(PlayerId(i), names[i], role, WordOf(role, secretWord, undercoverWord), false)
    ensures |WithRole(players, Impostor)| == |impostorIndices|
    ensures |WithRole(players, Undercover)| == Min(Max(undercoverCount, 0), |names| - |impostorIndices|)
  {
    var n := |names|;
    var under := UndercoverIndices(order, undercoverCount);
    RolesDrawn(n, impostorIndices, order, undercoverCount);
    assert WithRole(players, Impostor) == RoleIndices(n, impostorIndices, under, Impostor);
    assert WithRole(players, Undercover) == RoleIndices(n, impostorIndices, under, Undercover);
  }

  /** The table `startGame` deals: player i is `p-i`, alive, named `names[i]`,
      holds the word of their role, and the roles come in the requested
      numbers (impostors capped by the table size, undercover agents by the
      seats left). */
  ghost predicate Dealt(players: seq<Player>, names: seq<string>, impostorCount: int, undercoverCount: int,
                        secretWord: string, undercoverWord: string)
  {
    && |players| == |names|
    && (forall i :: 0 <= i < |names| ==>
          players[i].id == PlayerId(i) && players[i].name == names[i] && !players[i].isDead
          && players[i].word == WordOf(players[i].role, secretWord, undercoverWord))
    && |WithRole(players, Impostor)| == Min(Max(impostorCount, 0), |names|)
    && |WithRole(players, Undercover)| == Min(Max(undercoverCount, 0), |names| - Min(Max(impostorCount, 0), |names|))
  }

  /** The impostor history after a deal: one more for each (distinct) name
      dealt the impostor role, unchanged for everyone else. */
  ghost predicate Bumped(history: History, newHistory: History, names: seq<string>, players: seq<Player>)
    requires |players| == |names|
  {
    && (Distinct(names) ==> forall i :: 0 <= i < |names| ==>
          Times(newHistory, names[i]) == Times(history, names[i]) + (if players[i].role == Impostor then 1 else 0))
    && (forall n :: n !in names ==> Times(newHistory, n) == Times(history, n))
  }

  /** The role-dealing part of `startGame`: the players built from the names,
      the impostors drawn by history, the others shuffled, the first of them
      made undercover, and the history raised for the drawn names. */
  method DealRoles(names: seq<string>, impostorCount: int, undercoverCount: int, history: History,
                   picks: seq<nat>, shuffleDraws: seq<Unit>, secretWord: string, undercoverWord: string)
    returns (players: seq<Player>, newHistory: History)
    requires |shuffleDraws| >= |names|
    ensures Dealt(players, names, impostorCount, undercoverCount, secretWord, undercoverWord)
    ensures Bumped(history, newHistory, names, players)
  {
    var impostorIndices;
    impostorIndices, newHistory := DrawImpostors(names, impostorCount, history, picks);
    var order := ShuffledOthers(|names|, impostorIndices, shuffleDraws);
    forall k | 0 <= k < |order| ensures order[k] < |names| {
      assert order[k] in order;
    }
    players := AssignRoles(names, impostorIndices, order, undercoverCount, secretWord, undercoverWord);
    DealtPlayers(players, names, impostorIndices, order, undercoverCount, secretWord, undercoverWord);
    if Distinct(names) {
      DrawnGainOne(history, newHistory, names, impostorIndices, UndercoverIndices(order, undercoverCount));
    }
  }
}
