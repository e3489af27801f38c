/** Vocabulary shared by every part of the game: roles, modes, players, word pairs,
    the random source, and the living-player counts that the handlers recompute
    with `filter(...).length`. */
module GameTypes {

  datatype Option<T> = None | Some(value: T)

  /** `Role` of types.ts: 'citizen' | 'impostor' | 'undercover'. */
  datatype Role = Citizen | Impostor | Undercover

  /** `GameMode` of types.ts: 'classic' | 'chaos' | 'hardcore'. */
  datatype GameMode = Classic | Chaos | Hardcore

  /** The winning side: 'citizens' | 'impostor'. */
  datatype Winner = Citizens | Impostors

  /** A player; `word` is `None` where the source leaves it `undefined`. */
  datatype Player = Player(id: string, name: string, role: Role, word: Option<string>, isDead: bool)

  /** `WordPair` of types.ts: the majority word and the undercover word. */
  datatype WordPair = WordPair(normal: string, undercover: string)

  /** A value of `Math.random()`, a number in [0, 1), written as a fraction. */
  datatype Fraction = Fraction(num: nat, den: nat)
  type Unit = f: Fraction | f.num < f.den witness Fraction(0, 1)

  /** `Math.floor(Math.random() * n)`: always an index of a list of length n > 0. */
  function Scale(u: Unit, n: nat): (k: nat)
    ensures n > 0 ==> k < n
    ensures n == 0 ==> k == 0
  {
    ScaleBelow(u.num, u.den, n);
    u.num * n / u.den
  }

  lemma ScaleBelow(num: nat, den: nat, n: nat)
    requires num < den
    ensures n > 0 ==> num * n / den < n
    ensures n == 0 ==> num * n / den == 0
  {
    var a := num * n;
    var q := a / den;
    MulMonotone(n, num + 1, den);
    assert n * (num + 1) == a + n;
    assert den * q <= a;
    MulMonotone(den, n, q);
  }

  /** Multiplying by a natural number keeps the order. */
  lemma {:induction false} MulMonotone(d: nat, x: nat, y: nat)
    ensures x <= y ==> d * x <= d * y
    decreases y
  {
    if x < y {
      MulMonotone(d, x, y - 1);
      assert d * y == d * (y - 1) + d;
    }
  }

  /** `players.filter(p => !p.isDead)`. */
  function Living(ps: seq<Player>): (r: seq<Player>)
    ensures |r| <= |ps|
    ensures forall p :: p in r <==> p in ps && !p.isDead
  {
    if ps == [] then []
    else if !ps[0].isDead then [ps[0]] + Living(ps[1..])
    else Living(ps[1..])
  }

  /** `players.filter(p => !p.isDead && p.role === 'impostor').length`. */
  function LivingImpostorCount(ps: seq<Player>): nat
  {
    if ps == [] then 0
    else (if !ps[0].isDead && ps[0].role == Impostor then 1 else 0) + LivingImpostorCount(ps[1..])
  }

  /** `players.filter(p => !p.isDead).length`. */
  function LivingCount(ps: seq<Player>): nat
  {
    |Living(ps)|
  }

  /** Every living player is an impostor. */
  ghost predicate AllSurvivorsImpostors(ps: seq<Player>)
  {
    forall i :: 0 <= i < |ps| && !ps[i].isDead ==> ps[i].role == Impostor
  }

  /** No living impostor is left. */
  ghost predicate NoLivingImpostor(ps: seq<Player>)
  {
    forall i :: 0 <= i < |ps| && !ps[i].isDead ==> ps[i].role != Impostor
  }

  /** The living impostors are never more than the living players, and they are
      as many exactly when every survivor is an impostor. */
  lemma {:induction false} ImpostorCountBound(ps: seq<Player>)
    ensures LivingImpostorCount(ps) <= LivingCount(ps)
    ensures LivingImpostorCount(ps) == LivingCount(ps) <==> AllSurvivorsImpostors(ps)
  {
    if ps != [] {
      ImpostorCountBound(ps[1..]);
      if AllSurvivorsImpostors(ps) {
        assert AllSurvivorsImpostors(ps[1..]) by {
          forall i | 0 <= i < |ps[1..]| && !ps[1..][i].isDead ensures ps[1..][i].role == Impostor {
            assert ps[1..][i] == ps[i + 1];
          }
        }
      }
      if AllSurvivorsImpostors(ps[1..]) && (!ps[0].isDead ==> ps[0].role == Impostor) {
        forall i | 0 <= i < |ps| && !ps[i].isDead ensures ps[i].role == Impostor {
          if i > 0 { assert ps[i] == ps[1..][i - 1]; }
        }
      }
    }
  }

  /** No living impostor exactly when the living-impostor count is zero. */
  lemma {:induction false} NoImpostorCount(ps: seq<Player>)
    ensures LivingImpostorCount(ps) == 0 <==> NoLivingImpostor(ps)
  {
    if ps != [] {
      NoImpostorCount(ps[1..]);
      if NoLivingImpostor(ps) {
        assert NoLivingImpostor(ps[1..]) by {
          forall i | 0 <= i < |ps[1..]| && !ps[1..][i].isDead ensures ps[1..][i].role != Impostor {
            assert ps[1..][i] == ps[i + 1];
          }
        }
      }
      if NoLivingImpostor(ps[1..]) && (!ps[0].isDead ==> ps[0].role != Impostor) {
        forall i | 0 <= i < |ps| && !ps[i].isDead ensures ps[i].role != Impostor {
          if i > 0 { assert ps[i] == ps[1..][i - 1]; }
        }
      }
    }
  }

  /** The ids of the players, in order. */
  function Ids(ps: seq<Player>): (r: seq<string>)
    ensures |r| == |ps|
    ensures forall i :: 0 <= i < |ps| ==> r[i] == ps[i].id
  {
    if ps == [] then [] else [ps[0].id] + Ids(ps[1..])
  }

  /** No two players share an id. */
  ghost predicate UniqueIds(ps: seq<Player>)
  {
    forall i, j :: 0 <= i < j < |ps| ==> ps[i].id != ps[j].id
  }

  /** `players.find(p => p.id === id)`. */
  function Find(ps: seq<Player>, id: string): (r: Option<Player>)
    ensures r.Some? <==> exists i :: 0 <= i < |ps| && ps[i].id == id
    ensures r.Some? ==> r.value in ps && r.value.id == id
    ensures r.Some? ==> exists i :: 0 <= i < |ps| && ps[i] == r.value
                                    && forall j :: 0 <= j < i ==> ps[j].id != id
  {
    if ps == [] then None
    else if ps[0].id == id then Some(ps[0])
    else
      var r := Find(ps[1..], id);
      if r.Some? then
        assert exists i :: 0 <= i < |ps[1..]| && ps[1..][i] == r.value
                          && forall j :: 0 <= j < i ==> ps[1..][j].id != id;
        var i :| 0 <= i < |ps[1..]| && ps[1..][i] == r.value
                          && forall j :: 0 <= j < i ==> ps[1..][j].id != id;
        assert ps[i + 1] == r.value;
        assert forall j :: 0 <= j < i + 1 ==> ps[j].id != id by {
          forall j | 0 <= j < i + 1 ensures ps[j].id != id {
            if j > 0 { assert ps[j] == ps[1..][j - 1]; }
          }
        }
        r
      else
        assert forall i :: 0 < i < |ps| ==> ps[i] == ps[1..][i - 1];
        r
  }
}
