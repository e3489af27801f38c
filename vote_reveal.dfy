/** components/VoteRevealPhase.tsx: the secret ballots are counted, the
    plurality leader is chosen (a random one of the leaders on a tie), the
    ballots are revealed one at a time, and the final count is listed. */
module VoteReveal {
  import opened GameTypes

  /** One entry `voterId -> victimId` of the `votes` object. */
  datatype Ballot = Ballot(voter: string, victim: string)

  /** The `votes` object as its entries in insertion order (its keys are ids such
      as "p-3", which are not array indices, so JavaScript keeps them in the
      order they were first set). */
  type Votes = seq<Ballot>

  /** One entry `victimId -> count` of the `tally` object. */
  datatype Count = Count(id: string, n: nat)

  ghost predicate UniqueVoters(votes: Votes)
  {
    forall i, j :: 0 <= i < j < |votes| ==> votes[i].voter != votes[j].voter
  }

  /** `Object.values(votes)`. */
  function Victims(votes: Votes): (r: seq<string>)
    ensures |r| == |votes| && forall k :: 0 <= k < |votes| ==> r[k] == votes[k].victim
  {
    seq(|votes|, k requires 0 <= k < |votes| => votes[k].victim)
  }

  /** The ids of the tally, in order. */
  function TallyIds(tally: seq<Count>): (r: seq<string>)
    ensures |r| == |tally| && forall k :: 0 <= k < |tally| ==> r[k] == tally[k].id
  {
    seq(|tally|, k requires 0 <= k < |tally| => tally[k].id)
  }

  ghost predicate DistinctIds(tally: seq<Count>)
  {
    forall i, j :: 0 <= i < j < |tally| ==> tally[i].id != tally[j].id
  }

  /** The sum of the counts. */
  function Total(tally: seq<Count>): nat
  {
    if tally == [] then 0 else Total(tally[..|tally| - 1]) + tally[|tally| - 1].n
  }

  lemma {:induction false} TotalUpdate(tally: seq<Count>, k: nat, c: Count)
    requires k < |tally|
    ensures Total(tally[k := c]) == Total(tally) - tally[k].n + c.n
  {
    var last := |tally| - 1;
    if k < last {
      TotalUpdate(tally[..last], k, c);
      assert tally[k := c][..last] == tally[..last][k := c];
    } else {
      assert tally[k := c][..last] == tally[..last];
    }
  }

  /** Where `id` sits in the tally, if it is there. */
  function Position(tally: seq<Count>, id: string): (k: int)
    ensures -1 <= k < |tally|
    ensures k >= 0 ==> tally[k].id == id
    ensures k < 0 ==> id !in TallyIds(tally)
  {
    if tally == [] then -1
    else if tally[|tally| - 1].id == id then |tally| - 1
    else Position(tally[..|tally| - 1], id)
  }

  /** `tally[id] || 0`. */
  function CountOf(tally: seq<Count>, id: string): nat
  {
    var k := Position(tally, id);
    if k >= 0 then tally[k].n else 0
  }

  /** `tally[id] = n`: an existing key keeps its place, a new key goes last. */
  function SetCount(tally: seq<Count>, id: string, n: nat): seq<Count>
  {
    var k := Position(tally, id);
    if k >= 0 then tally[k := Count(id, n)] else tally + [Count(id, n)]
  }

  /** What the tally of the ballots `seen` must be. */
  ghost predicate TallyOf(tally: seq<Count>, seen: seq<string>)
  {
    && DistinctIds(tally)
    && (forall v :: v in TallyIds(tally) <==> v in seen)
    && (forall k :: 0 <= k < |tally| ==> tally[k].n == multiset(seen)[tally[k].id])
    && (forall k :: 0 <= k < |tally| ==> tally[k].n >= 1)
    && Total(tally) == |seen|
  }

  lemma CountOneMore(tally: seq<Count>, seen: seq<string>, v: string)
    requires TallyOf(tally, seen)
    ensures TallyOf(SetCount(tally, v, CountOf(tally, v) + 1), seen + [v])
  {
    var k := Position(tally, v);
    if k >= 0 {
      var next := tally[k := Count(v, tally[k].n + 1)];
      assert SetCount(tally, v, CountOf(tally, v) + 1) == next;
      RaiseExisting(tally, seen, v, k);
    } else {
      assert SetCount(tally, v, CountOf(tally, v) + 1) == tally + [Count(v, 1)];
      AddNew(tally, seen, v);
    }
  }

  lemma RaiseExisting(tally: seq<Count>, seen: seq<string>, v: string, k: nat)
    requires TallyOf(tally, seen)
    requires k < |tally| && tally[k].id == v
    ensures TallyOf(tally[k := Count(v, tally[k].n + 1)], seen + [v])
  {
    var next := tally[k := Count(v, tally[k].n + 1)];
    var ms := multiset(seen + [v]);
    assert ms == multiset(seen) + multiset{v};
    TotalUpdate(tally, k, Count(v, tally[k].n + 1));
    assert TallyIds(next) == TallyIds(tally);
    assert v in seen by { assert v in TallyIds(tally); }
    forall j | 0 <= j < |next| ensures next[j].n == ms[next[j].id] {
      if j != k {
        assert next[j].id != v;
      }
    }
  }

  lemma AddNew(tally: seq<Count>, seen: seq<string>, v: string)
    requires TallyOf(tally, seen)
    requires v !in TallyIds(tally)
    ensures TallyOf(tally + [Count(v, 1)], seen + [v])
  {
    var next := tally + [Count(v, 1)];
    var ms := multiset(seen + [v]);
    assert ms == multiset(seen) + multiset{v};
    assert v !in seen;
    assert next[..|next| - 1] == tally;
    assert TallyIds(next) == TallyIds(tally) + [v];
    forall j | 0 <= j < |next| ensures next[j].n == ms[next[j].id] {
      if j < |tally| {
        assert next[j] == tally[j];
        assert tally[j].id != v by { assert tally[j].id in TallyIds(tally); }
      }
    }
    forall i, j | 0 <= i < j < |next| ensures next[i].id != next[j].id {
      if j == |tally| {
        assert next[i].id in TallyIds(tally);
      }
    }
  }

  /** The `forEach` that builds `tally`: each victim id, in ballot order, has its
      count raised by one, and is added with count 1 the first time it is seen. */
  method Tally(votes: Votes) returns (tally: seq<Count>)
    ensures DistinctIds(tally)
    ensures forall v :: v in TallyIds(tally) <==> v in Victims(votes)
    ensures forall k :: 0 <= k < |tally| ==> tally[k].n == multiset(Victims(votes))[tally[k].id]
    ensures forall k :: 0 <= k < |tally| ==> tally[k].n >= 1
    ensures Total(tally) == |votes|
  {
    var victims := Victims(votes);
    tally := [];
    var i := 0;
    while i < |victims|
      invariant 0 <= i <= |victims|
      invariant TallyOf(tally, victims[..i])
    {
      var v := victims[i];
      assert victims[..i + 1] == victims[..i] + [v];
      CountOneMore(tally, victims[..i], v);
      tally := SetCount(tally, v, CountOf(tally, v) + 1);
      i := i + 1;
    }
    assert victims[..i] == victims;
  }

  /** `Math.max(...Object.values(tally), 0)`. */
  function MaxVotes(tally: seq<Count>): (m: nat)
    ensures forall k :: 0 <= k < |tally| ==> tally[k].n <= m
    ensures m == 0 || exists k :: 0 <= k < |tally| && tally[k].n == m
  {
    if tally == [] then 0
    else
      var init := tally[..|tally| - 1];
      var m := MaxVotes(init);
      assert forall k :: 0 <= k < |init| ==> init[k] == tally[k];
      if tally[|tally| - 1].n > m then tally[|tally| - 1].n else m
  }

  /** `topCandidates`: the ids whose count equals `maxVotes`, in tally order. */
  function TopCandidates(tally: seq<Count>, maxVotes: nat): (r: seq<string>)
    ensures forall x :: x in r <==> exists k :: 0 <= k < |tally| && tally[k].id == x && tally[k].n == maxVotes
    ensures |r| <= |tally|
  {
    if tally == [] then []
    else
      var init := tally[..|tally| - 1];
      var last := tally[|tally| - 1];
      var r := TopCandidates(init, maxVotes);
      assert forall k :: 0 <= k < |init| ==> init[k] == tally[k];
      if last.n == maxVotes then r + [last.id] else r
  }

  lemma {:induction false} TopCandidatesDistinct(tally: seq<Count>, maxVotes: nat)
    requires DistinctIds(tally)
    ensures forall i, j :: 0 <= i < j < |TopCandidates(tally, maxVotes)| ==>
              TopCandidates(tally, maxVotes)[i] != TopCandidates(tally, maxVotes)[j]
  {
    if tally != [] {
      var init := tally[..|tally| - 1];
      var last := tally[|tally| - 1];
      var r := TopCandidates(init, maxVotes);
      assert DistinctIds(init) by {
        forall i, j | 0 <= i < j < |init| ensures init[i].id != init[j].id {
          assert init[i] == tally[i] && init[j] == tally[j];
        }
      }
      TopCandidatesDistinct(init, maxVotes);
      if last.n == maxVotes {
        var top := r + [last.id];
        assert TopCandidates(tally, maxVotes) == top;
        forall x | x in r ensures x != last.id {
          var k :| 0 <= k < |init| && init[k].id == x && init[k].n == maxVotes;
          assert init[k] == tally[k];
        }
        forall i, j | 0 <= i < j < |top| ensures top[i] != top[j] {
          if j == |r| {
            assert top[i] == r[i] && r[i] in r;
          } else {
            assert top[i] == r[i] && top[j] == r[j];
          }
        }
      } else {
        assert TopCandidates(tally, maxVotes) == r;
      }
    }
  }

  /** `victimId`: the only leader, or the leader at `Math.floor(u * length)`;
      `undefined` when nobody received a vote. */
  function ChooseVictim(top: seq<string>, u: Unit): (r: Option<string>)
    ensures r.Some? <==> top != []
    ensures r.Some? ==> r.value in top
    ensures |top| == 1 ==> r == Some(top[0])
  {
    if |top| == 1 then Some(top[0])
    else if top == [] then None
    else Some(top[Scale(u, |top|)])
  }

  /** With at least one ballot there is at least one leader. */
  lemma TopCandidatesNonEmpty(tally: seq<Count>)
    requires tally != [] && forall k :: 0 <= k < |tally| ==> tally[k].n >= 1
    ensures TopCandidates(tally, MaxVotes(tally)) != []
  {
    var m := MaxVotes(tally);
    var k :| 0 <= k < |tally| && tally[k].n == m;
    assert tally[k].id in TopCandidates(tally, m);
  }

  /** Two different ids share the highest count. */
  ghost predicate Tied(tally: seq<Count>)
  {
    exists i, j :: 0 <= i < j < |tally| && tally[i].n == MaxVotes(tally) && tally[j].n == MaxVotes(tally)
  }

  /** The tie notice is shown exactly when two different ids share the highest count. */
  lemma TieNoticeMeansTie(tally: seq<Count>)
    requires DistinctIds(tally)
    ensures |TopCandidates(tally, MaxVotes(tally))| > 1 <==> Tied(tally)
  {
    TopCandidatesDistinct(tally, MaxVotes(tally));
    if |TopCandidates(tally, MaxVotes(tally))| > 1 {
      NoticeHasTwo(tally);
    }
    if Tied(tally) {
      TwoLeadersNotice(tally);
    }
  }

  lemma NoticeHasTwo(tally: seq<Count>)
    requires |TopCandidates(tally, MaxVotes(tally))| > 1
    requires forall i, j :: 0 <= i < j < |TopCandidates(tally, MaxVotes(tally))| ==>
               TopCandidates(tally, MaxVotes(tally))[i] != TopCandidates(tally, MaxVotes(tally))[j]
    ensures Tied(tally)
  {
    var m := MaxVotes(tally);
    var top := TopCandidates(tally, m);
    assert top[0] in top && top[1] in top;
    var a :| 0 <= a < |tally| && tally[a].id == top[0] && tally[a].n == m;
    var b :| 0 <= b < |tally| && tally[b].id == top[1] && tally[b].n == m;
    assert a != b;
    if a < b {
      assert 0 <= a < b < |tally| && tally[a].n == m && tally[b].n == m;
    } else {
      assert 0 <= b < a < |tally| && tally[b].n == m && tally[a].n == m;
    }
  }

  lemma TwoLeadersNotice(tally: seq<Count>)
    requires DistinctIds(tally) && Tied(tally)
    ensures |TopCandidates(tally, MaxVotes(tally))| > 1
  {
    var m := MaxVotes(tally);
    var top := TopCandidates(tally, m);
    var i, j :| 0 <= i < j < |tally| && tally[i].n == m && tally[j].n == m;
    assert tally[i].id in top && tally[j].id in top;
    assert tally[i].id != tally[j].id;
    TwoMembers(top, tally[i].id, tally[j].id);
  }

  /** A sequence holding two different values has at least two elements. */
  lemma TwoMembers(s: seq<string>, a: string, b: string)
    requires a in s && b in s && a != b
    ensures |s| > 1
  {
  }

  /** The chosen victim has the highest count of the tally. */
  lemma VictimLeads(tally: seq<Count>, u: Unit)
    ensures ChooseVictim(TopCandidates(tally, MaxVotes(tally)), u).Some? ==>
              exists k :: 0 <= k < |tally| && tally[k].id == ChooseVictim(TopCandidates(tally, MaxVotes(tally)), u).value
                          && tally[k].n == MaxVotes(tally)
  {
  }

  /** When one id alone has the highest count, it is the victim whatever the draw. */
  lemma {:induction false} UniqueLeaderChosen(tally: seq<Count>, u: Unit, j: nat)
    requires DistinctIds(tally)
    requires j < |tally| && forall k :: 0 <= k < |tally| && k != j ==> tally[k].n < tally[j].n
    ensures ChooseVictim(TopCandidates(tally, MaxVotes(tally)), u) == Some(tally[j].id)
  {
    var m := MaxVotes(tally);
    var top := TopCandidates(tally, m);
    assert tally[j].n == m by {
      if m != 0 {
        var k :| 0 <= k < |tally| && tally[k].n == m;
      }
    }
    assert tally[j].id in top;
    forall y | y in top ensures y == tally[j].id {
      var k :| 0 <= k < |tally| && tally[k].id == y && tally[k].n == m;
      assert k == j;
    }
  }

  /** The victim the reveal screen settles on for the given ballots and tie-break
      draw: `undefined` exactly when there are no ballots; otherwise a candidate
      with the most votes, and the only such candidate whenever there is one. */
  method ChooseFromBallots(votes: Votes, u: Unit) returns (victim: Option<string>)
    ensures victim.Some? <==> votes != []
    ensures victim.Some? ==> victim.value in Victims(votes)
    ensures victim.Some? ==> forall x :: multiset(Victims(votes))[x] <= multiset(Victims(votes))[victim.value]
    ensures forall w :: w in Victims(votes) &&
                        (forall x :: x != w ==> multiset(Victims(votes))[x] < multiset(Victims(votes))[w])
                        ==> victim == Some(w)
  {
    var tally := Tally(votes);
    var maxVotes := MaxVotes(tally);
    var top := TopCandidates(tally, maxVotes);
    victim := ChooseVictim(top, u);
    LeaderHasMost(votes, tally, u);
    UniqueLeaderWins(votes, tally, u);
  }

  /** What `Tally` promises about its result. */
  ghost predicate TallyFor(tally: seq<Count>, votes: Votes)
  {
    && DistinctIds(tally)
    && (forall v :: v in TallyIds(tally) <==> v in Victims(votes))
    && (forall k :: 0 <= k < |tally| ==> tally[k].n == multiset(Victims(votes))[tally[k].id])
    && (forall k :: 0 <= k < |tally| ==> tally[k].n >= 1)
  }

  /** From a tally of the ballots, the draw picks someone exactly when there
      are ballots, and whoever it picks received the most votes. */
  lemma LeaderHasMost(votes: Votes, tally: seq<Count>, u: Unit)
    requires TallyFor(tally, votes)
    ensures var victim := ChooseVictim(TopCandidates(tally, MaxVotes(tally)), u);
            && (victim.Some? <==> votes != [])
            && (victim.Some? ==> victim.value in Victims(votes))
            && (victim.Some? ==> forall x :: multiset(Victims(votes))[x] <= multiset(Victims(votes))[victim.value])
  {
    var maxVotes := MaxVotes(tally);
    var victim := ChooseVictim(TopCandidates(tally, maxVotes), u);
    ghost var ms := multiset(Victims(votes));
    if votes != [] {
      assert Victims(votes)[0] in Victims(votes);
      assert Victims(votes)[0] in TallyIds(tally);
      TopCandidatesNonEmpty(tally);
    } else {
      assert TallyIds(tally) == [];
    }
    if victim.Some? {
      VictimLeads(tally, u);
      var k :| 0 <= k < |tally| && tally[k].id == victim.value && tally[k].n == maxVotes;
      assert tally[k].id in TallyIds(tally);
      forall x ensures ms[x] <= ms[victim.value] {
        if x in Victims(votes) {
          assert x in TallyIds(tally);
          var j :| 0 <= j < |tally| && tally[j].id == x;
        }
      }
    }
  }

  /** From a tally of the ballots, an id with strictly more votes than any
      other is the victim whatever the draw. */
  lemma UniqueLeaderWins(votes: Votes, tally: seq<Count>, u: Unit)
    requires TallyFor(tally, votes)
    ensures forall w :: w in Victims(votes) &&
                        (forall x :: x != w ==> multiset(Victims(votes))[x] < multiset(Victims(votes))[w])
                        ==> ChooseVictim(TopCandidates(tally, MaxVotes(tally)), u) == Some(w)
  {
    ghost var ms := multiset(Victims(votes));
    forall w | w in Victims(votes) && (forall x :: x != w ==> ms[x] < ms[w])
      ensures ChooseVictim(TopCandidates(tally, MaxVotes(tally)), u) == Some(w)
    {
      assert w in TallyIds(tally);
      var j :| 0 <= j < |tally| && tally[j].id == w;
      forall k | 0 <= k < |tally| && k != j ensures tally[k].n < tally[j].n {
        assert tally[k].id != w;
      }
      UniqueLeaderChosen(tally, u, j);
    }
  }

  // ----- the final count -----

  /** `livingPlayers.filter(p => tally[p.id])`: living players with at least one vote. */
  function VotedLiving(players: seq<Player>, tally: seq<Count>): (r: seq<Player>)
    ensures forall p :: p in r <==> p in players && !p.isDead && CountOf(tally, p.id) > 0
  {
    if players == [] then []
    else
      var rest := VotedLiving(players[1..], tally);
      var p := players[0];
      assert forall q :: q in players <==> q == p || q in players[1..];
      if !p.isDead && CountOf(tally, p.id) > 0 then [p] + rest else rest
  }

  ghost predicate ByCountDescending(s: seq<Player>, tally: seq<Count>)
  {
    forall i, j :: 0 <= i < j < |s| ==> CountOf(tally, s[i].id) >= CountOf(tally, s[j].id)
  }

  /** Inserts p after every element with at least its count. */
  function InsertByCount(p: Player, s: seq<Player>, tally: seq<Count>): (r: seq<Player>)
    ensures multiset(r) == multiset(s) + multiset{p}
  {
    if s == [] then [p]
    else if CountOf(tally, p.id) > CountOf(tally, s[0].id) then [p] + s
    else
      assert s == [s[0]] + s[1..];
      [s[0]] + InsertByCount(p, s[1..], tally)
  }

  lemma InsertedBelow(p: Player, s: seq<Player>, tally: seq<Count>, bound: nat)
    requires CountOf(tally, p.id) <= bound
    requires forall k :: 0 <= k < |s| ==> CountOf(tally, s[k].id) <= bound
    ensures forall x :: x in InsertByCount(p, s, tally) ==> CountOf(tally, x.id) <= bound
  {
    var r := InsertByCount(p, s, tally);
    forall x | x in r ensures CountOf(tally, x.id) <= bound {
      assert x in multiset(r);
      if x != p {
        assert x in multiset(s);
      }
    }
  }

  lemma {:induction false} InsertKeepsOrder(p: Player, s: seq<Player>, tally: seq<Count>)
    requires ByCountDescending(s, tally)
    ensures ByCountDescending(InsertByCount(p, s, tally), tally)
  {
    var r := InsertByCount(p, s, tally);
    if s != [] && CountOf(tally, p.id) <= CountOf(tally, s[0].id) {
      var rest := InsertByCount(p, s[1..], tally);
      InsertKeepsOrder(p, s[1..], tally);
      assert r == [s[0]] + rest;
      InsertedBelow(p, s[1..], tally, CountOf(tally, s[0].id));
      forall i, j | 0 <= i < j < |r| ensures CountOf(tally, r[i].id) >= CountOf(tally, r[j].id) {
        if i == 0 {
          assert r[j] == rest[j - 1] && rest[j - 1] in rest;
        } else {
          assert r[i] == rest[i - 1] && r[j] == rest[j - 1];
        }
      }
    }
  }

  /** `.sort((a, b) => tally[b.id] - tally[a.id])`, as an insertion sort. */
  function SortByCount(s: seq<Player>, tally: seq<Count>): (r: seq<Player>)
    ensures multiset(r) == multiset(s)
    ensures ByCountDescending(r, tally)
  {
    if s == [] then []
    else
      assert s == s[..|s| - 1] + [s[|s| - 1]];
      var sorted := SortByCount(s[..|s| - 1], tally);
      InsertKeepsOrder(s[|s| - 1], sorted, tally);
      InsertByCount(s[|s| - 1], sorted, tally)
  }

  /** The "Conteo Final" rows. */
  function FinalCount(players: seq<Player>, tally: seq<Count>): seq<Player>
  {
    SortByCount(VotedLiving(players, tally), tally)
  }

  /** The final count lists exactly the living players with at least one vote,
      each once, highest count first. */
  lemma FinalCountListsVotedLiving(players: seq<Player>, tally: seq<Count>)
    ensures forall p :: p in FinalCount(players, tally) <==> p in players && !p.isDead && CountOf(tally, p.id) > 0
    ensures multiset(FinalCount(players, tally)) == multiset(VotedLiving(players, tally))
    ensures ByCountDescending(FinalCount(players, tally), tally)
  {
    var v := VotedLiving(players, tally);
    assert forall p :: p in FinalCount(players, tally) <==> p in multiset(FinalCount(players, tally));
    assert forall p :: p in v <==> p in multiset(v);
  }

  // ----- the one-by-one reveal -----

  /** The reveal screen's counter over the vote entries. */
  class Reveal {
    const votes: Votes
    var revealedCount: nat
    var showResult: bool

    ghost predicate Valid()
      reads this
    {
      revealedCount <= |votes| && (showResult ==> revealedCount == |votes|)
    }

    constructor (votes: Votes)
      ensures this.votes == votes && revealedCount == 0 && !showResult && Valid()
    {
      this.votes := votes;
      revealedCount := 0;
      showResult := false;
    }

    /** `voteEntries.slice(0, revealedCount)`: the ballots shown so far. */
    function Revealed(): (shown: seq<Ballot>)
      reads this
      requires Valid()
      ensures |shown| == revealedCount && shown <= votes
    {
      votes[..revealedCount]
    }

    /** One timer step of the effect: reveal one more ballot while some are
        hidden, otherwise show the result. */
    method Step()
      requires Valid()
      modifies this
      ensures Valid()
      ensures old(revealedCount) < |votes| ==> revealedCount == old(revealedCount) + 1 && showResult == old(showResult)
      ensures old(revealedCount) >= |votes| ==> revealedCount == old(revealedCount) && showResult
      ensures old(Revealed()) <= Revealed()
    {
      if revealedCount >= |votes| {
        showResult := true;
      } else {
        revealedCount := revealedCount + 1;
      }
    }

    /** "REVELAR ROL": offered once the result shows and the victim, chosen
        from these ballots with the tie-break draw `u`, is a player; it hands
        the victim's id on to the vote handler. */
    method Complete(players: seq<Player>, u: Unit) returns (handed: Option<string>)
      requires Valid()
      ensures handed.Some? ==> showResult && handed.value in Victims(votes) && Find(players, handed.value).Some?
      ensures handed.Some? ==> forall x :: multiset(Victims(votes))[x] <= multiset(Victims(votes))[handed.value]
      ensures !showResult || votes == [] ==> handed.None?
      ensures showResult && votes != [] && (forall k :: 0 <= k < |votes| ==> Find(players, votes[k].victim).Some?)
              ==> handed.Some?
      ensures forall w :: w in Victims(votes) &&
                          (forall x :: x != w ==> multiset(Victims(votes))[x] < multiset(Victims(votes))[w])
                          ==> (handed == Some(w) <==> showResult && Find(players, w).Some?)
    {
      var victimId := ChooseFromBallots(votes, u);
      if showResult && victimId.Some? && Find(players, victimId.value).Some? {
        handed := victimId;
      } else {
        handed := None;
      }
    }
  }
}
