/** The square of chunks a player holds, and how a move from one chunk to another updates it
    (Player::_updateRenderedChunks). */
module ViewWindow {

  datatype Pos = Pos(x: int, z: int)

  datatype ChunkState = Loading | Loaded

  /** The full square of chunks around a centre. */
  predicate InSquare(p: Pos, c: Pos, r: nat) {
    c.x - r <= p.x <= c.x + r && c.z - r <= p.z <= c.z + r
  }

  /** A block of chunks: x from x0 up to but not including x1, and the same for z. */
  datatype Area = Area(x0: int, x1: int, z0: int, z1: int) {
    predicate Has(p: Pos) {
      x0 <= p.x < x1 && z0 <= p.z < z1
    }
  }

  function Min(a: int, b: int): int { if a < b then a else b }
  function Max(a: int, b: int): int { if a > b then a else b }

  // ----- The bounds of the eight loops: old position o, new position n, render distance r -----

  function Unload1(o: Pos, n: Pos, r: nat): Area { Area(o.x - r, Min(n.x - r, o.x + r + 1), o.z - r, o.z + r + 1) }
  function Unload2(o: Pos, n: Pos, r: nat): Area {
    Area(o.x - r + (n.x - o.x), o.x + r + 1, o.z - r, Min(n.z - r, o.z + r + 1))
  }
  function Unload3(o: Pos, n: Pos, r: nat): Area { Area(Max(n.x + r + 1, o.x - r), o.x + r + 1, o.z - r, o.z + r + 1) }
  function Unload4(o: Pos, n: Pos, r: nat): Area {
    Area(o.x - r, o.x + r + 1 + (n.x - o.x), Max(n.z + r + 1, o.z - r), o.z + r + 1)
  }
  function Send1(o: Pos, n: Pos, r: nat): Area { Area(Max(o.x + r + 1, n.x - r), n.x + r + 1, n.z - r, n.z + r + 1) }
  function Send2(o: Pos, n: Pos, r: nat): Area {
    Area(n.x - r, n.x + r + 1 - (n.x - o.x), Max(o.z + r + 1, n.z - r), n.z + r + 1)
  }
  function Send3(o: Pos, n: Pos, r: nat): Area { Area(n.x - r, Min(o.x - r, n.x + r + 1), n.z - r, n.z + r + 1) }
  function Send4(o: Pos, n: Pos, r: nat): Area {
    Area(n.x - r - (n.x - o.x), n.x + r + 1, n.z - r, Min(o.z - r, n.z + r + 1))
  }

  /** Does the move run the unloading call for this chunk? */
  predicate Unloads(o: Pos, n: Pos, r: nat, p: Pos) {
    o != n && (Unload1(o, n, r).Has(p) || Unload2(o, n, r).Has(p) || Unload3(o, n, r).Has(p) || Unload4(o, n, r).Has(p))
  }

  /** How often the move sends this chunk. */
  function Sends(o: Pos, n: Pos, r: nat, p: Pos): nat {
    if o == n then 0 else
      (if Send1(o, n, r).Has(p) then 1 else 0) + (if Send2(o, n, r).Has(p) then 1 else 0)
      + (if Send3(o, n, r).Has(p) then 1 else 0) + (if Send4(o, n, r).Has(p) then 1 else 0)
  }

  /** The chunks held after a move. */
  ghost function AfterMove(held: iset<Pos>, o: Pos, n: Pos, r: nat): iset<Pos> {
    iset p: Pos | (p in held && !Unloads(o, n, r, p)) || Sends(o, n, r, p) > 0
  }

  ghost function Square(c: Pos, r: nat): iset<Pos> {
    iset p: Pos | InSquare(p, c, r)
  }

  /** No move along the rising diagonal's opposite: dx and dz never have different signs. */
  predicate Aligned(o: Pos, n: Pos) {
    !(n.x > o.x && n.z < o.z) && !(n.x < o.x && n.z > o.z)
  }

  lemma AlignedIsNonNegativeProduct(o: Pos, n: Pos)
    ensures Aligned(o, n) <==> (n.x - o.x) * (n.z - o.z) >= 0
  {
    var dx, dz := n.x - o.x, n.z - o.z;
    if dx > 0 && dz < 0 { assert dx * dz <= -1 * dx; }
    if dx < 0 && dz > 0 { assert dx * dz <= -1 * dz; }
  }

  /** A move never unloads a chunk of the new square and never sends a chunk of the old one; it unloads every
      chunk that leaves the square and sends every chunk that enters it. */
  lemma MoveIsDifference(o: Pos, n: Pos, r: nat, p: Pos)
    ensures InSquare(p, n, r) ==> !Unloads(o, n, r, p)
    ensures InSquare(p, o, r) ==> Sends(o, n, r, p) == 0
    ensures InSquare(p, o, r) && !InSquare(p, n, r) ==> Unloads(o, n, r, p)
    ensures InSquare(p, n, r) && !InSquare(p, o, r) ==> Sends(o, n, r, p) >= 1
  {}

  /** In an aligned move every chunk that enters is sent once and nothing else is sent. In any other move some
      chunk is sent twice, and some chunk outside both squares is sent. */
  lemma SendsExactIffAligned(o: Pos, n: Pos, r: nat)
    ensures Aligned(o, n) <==> forall p :: Sends(o, n, r, p) <= 1
    ensures Aligned(o, n) <==> forall p :: Sends(o, n, r, p) > 0 ==> InSquare(p, n, r)
  {
    if !Aligned(o, n) {
      var twice := Pos(if n.x > o.x then n.x + r else n.x - r, if n.z > o.z then n.z + r else n.z - r);
      var outside := Pos(if n.x > o.x then o.x - r else o.x + r, twice.z);
      assert Sends(o, n, r, twice) == 2;
      assert Sends(o, n, r, outside) > 0 && !InSquare(outside, n, r);
    }
  }

  /** The square is always held: if the old one was, the new one is. */
  lemma MoveKeepsSquare(held: iset<Pos>, o: Pos, n: Pos, r: nat)
    requires Square(o, r) <= held
    ensures Square(n, r) <= AfterMove(held, o, n, r)
  {
    forall p | p in Square(n, r) ensures p in AfterMove(held, o, n, r) { MoveIsDifference(o, n, r, p); }
  }

  /** From exactly the old square, a move ends with exactly the new one if and only if it is aligned. */
  lemma MoveIsExactIffAligned(o: Pos, n: Pos, r: nat)
    ensures AfterMove(Square(o, r), o, n, r) == Square(n, r) <==> Aligned(o, n)
  {
    SendsExactIffAligned(o, n, r);
    var after := AfterMove(Square(o, r), o, n, r);
    if Aligned(o, n) {
      forall p ensures p in after <==> p in Square(n, r) { MoveIsDifference(o, n, r, p); }
    } else {
      var p :| Sends(o, n, r, p) > 0 && !InSquare(p, n, r);
      assert p in after && p !in Square(n, r);
    }
  }

  // ----- Whole runs -----

  /** The chunks held after following a path of positions, starting with what was held at its first one. */
  ghost function Following(held: iset<Pos>, path: seq<Pos>, r: nat): iset<Pos>
    requires path != []
    decreases path
  {
    if |path| == 1 then held
    else AfterMove(Following(held, path[..|path| - 1], r), path[|path| - 2], path[|path| - 1], r)
  }

  ghost predicate AlignedPath(path: seq<Pos>) {
    forall i :: 0 < i < |path| ==> Aligned(path[i - 1], path[i])
  }

  lemma {:induction false} RunHoldsSquare(held: iset<Pos>, path: seq<Pos>, r: nat)
    requires path != [] && Square(path[0], r) <= held
    ensures Square(path[|path| - 1], r) <= Following(held, path, r)
    decreases path
  {
    if |path| > 1 {
      var front := path[..|path| - 1];
      RunHoldsSquare(held, front, r);
      MoveKeepsSquare(Following(held, front, r), path[|path| - 2], path[|path| - 1], r);
    }
  }

  /** After each of the first n positions of the path the player holds exactly the square around it. */
  ghost predicate ExactSoFar(path: seq<Pos>, r: nat, n: nat)
    requires path != [] && n <= |path|
  {
    forall k :: 1 <= k <= n ==> Following(Square(path[0], r), path[..k], r) == Square(path[k - 1], r)
  }

  lemma ExactFront(path: seq<Pos>, r: nat)
    requires |path| > 1
    ensures ExactSoFar(path[..|path| - 1], r, |path| - 1) <==> ExactSoFar(path, r, |path| - 1)
  {
    hide Following, Square;
    var front := path[..|path| - 1];
    forall k | 1 <= k <= |path| - 1
      ensures Following(Square(front[0], r), front[..k], r) == Following(Square(path[0], r), path[..k], r)
      ensures Square(front[k - 1], r) == Square(path[k - 1], r)
    {
      assert front[..k] == path[..k];
    }
  }

  /** From the initial square, the player holds exactly the square after every move of a run if and only if
      every move of the run is aligned. */
  lemma {:induction false} RunIsExactIffAligned(path: seq<Pos>, r: nat)
    requires path != []
    ensures AlignedPath(path) <==> ExactSoFar(path, r, |path|)
    decreases path
  {
    hide Square, AfterMove, Aligned;
    assert path[..|path|] == path;
    if |path| > 1 {
      var last := |path| - 1;
      var front := path[..last];
      RunIsExactIffAligned(front, r);
      ExactFront(path, r);
      MoveIsExactIffAligned(path[last - 1], path[last], r);
      assert AlignedPath(path) <==> AlignedPath(front) && Aligned(path[last - 1], path[last]);
      if ExactSoFar(path, r, last) {
        assert Following(Square(path[0], r), path[..last], r) == Square(path[last - 1], r);
      }
    }
  }

  // ----- The player's own chunk table -----

  /** `sent` and `unloaded` count the calls that reached the client or the dimension, chunk by chunk. */
  class PlayerView {
    var chunks: map<Pos, ChunkState>
    ghost var sent: multiset<Pos>
    ghost var unloaded: multiset<Pos>

    ghost function Held(): iset<Pos>
      reads this
    {
      iset p: Pos | p in chunks
    }

    constructor ()
      ensures Held() == iset{} && sent == multiset{} && unloaded == multiset{}
    {
      chunks, sent, unloaded := map[], multiset{}, multiset{};
    }

    /** A chunk that is held is given up, whether it is still loading or already shown. */
    method UnloadChunk(x: int, z: int)
      modifies this
      ensures chunks == old(chunks) - {Pos(x, z)} && sent == old(sent)
      ensures unloaded == if Pos(x, z) in old(chunks) then old(unloaded) + multiset{Pos(x, z)} else old(unloaded)
    {
      if Pos(x, z) !in chunks { return; }
      unloaded := unloaded + multiset{Pos(x, z)};
      chunks := chunks - {Pos(x, z)};
    }

    /** `ready`: does the dimension have the chunk? If not it is requested and marked as loading. */
    method SendChunkAndLightUpdate(x: int, z: int, ready: bool)
      modifies this
      ensures chunks == old(chunks)[Pos(x, z) := if ready then Loaded else Loading]
      ensures sent == old(sent) + multiset{Pos(x, z)} && unloaded == old(unloaded)
    {
      sent := sent + multiset{Pos(x, z)};
      chunks := chunks[Pos(x, z) := if ready then Loaded else Loading];
    }

    /** The inner loop, for one x. */
    method UnloadLine(a: Area, x: int)
      requires a.x0 <= x < a.x1
      modifies this
      ensures forall p :: p in chunks <==> p in old(chunks) && !(a.Has(p) && p.x == x)
      ensures forall p :: unloaded[p] == old(unloaded)[p] + if p in old(chunks) && a.Has(p) && p.x == x then 1 else 0
      ensures sent == old(sent)
    {
      var z := a.z0;
      while z < a.z1
        invariant a.z0 <= z && (a.z0 <= a.z1 ==> z <= a.z1)
        invariant forall p :: p in chunks <==> p in old(chunks) && !(a.Has(p) && p.x == x && p.z < z)
        invariant forall p :: unloaded[p] == old(unloaded)[p] + if p in old(chunks) && a.Has(p) && p.x == x && p.z < z
                    then 1 else 0
        invariant sent == old(sent)
      {
        UnloadChunk(x, z);
        z := z + 1;
      }
    }

    method UnloadArea(a: Area)
      modifies this
      ensures forall p :: p in chunks <==> p in old(chunks) && !a.Has(p)
      ensures forall p :: unloaded[p] == old(unloaded)[p] + if p in old(chunks) && a.Has(p) then 1 else 0
      ensures sent == old(sent)
    {
      var x := a.x0;
      while x < a.x1
        invariant a.x0 <= x && (a.x0 <= a.x1 ==> x <= a.x1)
        invariant forall p :: p in chunks <==> p in old(chunks) && !(a.Has(p) && p.x < x)
        invariant forall p :: unloaded[p] == old(unloaded)[p] + if p in old(chunks) && a.Has(p) && p.x < x then 1 else 0
        invariant sent == old(sent)
      {
        UnloadLine(a, x);
        x := x + 1;
      }
    }

    method SendLine(a: Area, x: int, ready: Pos -> bool)
      requires a.x0 <= x < a.x1
      modifies this
      ensures forall p :: p in chunks <==> p in old(chunks) || (a.Has(p) && p.x == x)
      ensures forall p :: sent[p] == old(sent)[p] + if a.Has(p) && p.x == x then 1 else 0
      ensures unloaded == old(unloaded)
    {
      var z := a.z0;
      while z < a.z1
        invariant a.z0 <= z && (a.z0 <= a.z1 ==> z <= a.z1)
        invariant forall p :: p in chunks <==> p in old(chunks) || (a.Has(p) && p.x == x && p.z < z)
        invariant forall p :: sent[p] == old(sent)[p] + if a.Has(p) && p.x == x && p.z < z then 1 else 0
        invariant unloaded == old(unloaded)
      {
        SendChunkAndLightUpdate(x, z, ready(Pos(x, z)));
        z := z + 1;
      }
    }

    method SendArea(a: Area, ready: Pos -> bool)
      modifies this
      ensures forall p :: p in chunks <==> p in old(chunks) || a.Has(p)
      ensures forall p :: sent[p] == old(sent)[p] + if a.Has(p) then 1 else 0
      ensures unloaded == old(unloaded)
    {
      var x := a.x0;
      while x < a.x1
        invariant a.x0 <= x && (a.x0 <= a.x1 ==> x <= a.x1)
        invariant forall p :: p in chunks <==> p in old(chunks) || (a.Has(p) && p.x < x)
        invariant forall p :: sent[p] == old(sent)[p] + if a.Has(p) && p.x < x then 1 else 0
        invariant unloaded == old(unloaded)
      {
        SendLine(a, x, ready);
        x := x + 1;
      }
    }

    /** The first four double loops. */
    method UnloadOld(o: Pos, n: Pos, r: nat)
      requires o != n
      modifies this
      ensures sent == old(sent)
      ensures forall p :: p in chunks <==> p in old(chunks) && !Unloads(o, n, r, p)
      ensures forall p :: unloaded[p] == old(unloaded)[p] + if p in old(chunks) && Unloads(o, n, r, p) then 1 else 0
    {
      hide Unload1, Unload2, Unload3, Unload4, Area.Has;
      UnloadArea(Unload1(o, n, r));
      UnloadArea(Unload2(o, n, r));
      UnloadArea(Unload3(o, n, r));
      UnloadArea(Unload4(o, n, r));
    }

    /** The last four. */
    method SendNew(o: Pos, n: Pos, r: nat, ready: Pos -> bool)
      requires o != n
      modifies this
      ensures unloaded == old(unloaded)
      ensures forall p :: p in chunks <==> p in old(chunks) || Sends(o, n, r, p) > 0
      ensures forall p :: sent[p] == old(sent)[p] + Sends(o, n, r, p)
    {
      hide Send1, Send2, Send3, Send4, Area.Has;
      SendArea(Send1(o, n, r), ready);
      SendArea(Send2(o, n, r), ready);
      SendArea(Send3(o, n, r), ready);
      SendArea(Send4(o, n, r), ready);
    }

    /** The eight double loops. What is held becomes AfterMove; each chunk is sent and unloaded as often as counted. */
    method UpdateRenderedChunks(o: Pos, n: Pos, r: nat, ready: Pos -> bool)
      modifies this
      ensures Held() == AfterMove(old(Held()), o, n, r)
      ensures forall p :: sent[p] == old(sent)[p] + Sends(o, n, r, p)
      ensures forall p :: unloaded[p] == old(unloaded)[p] + if p in old(Held()) && Unloads(o, n, r, p) then 1 else 0
    {
      if n == o { return; }
      UnloadOld(o, n, r);
      SendNew(o, n, r, ready);
    }

    /** One column of the login window; the centre is left out. */
    method SendColumn(x: int, r: nat, ready: Pos -> bool)
      modifies this
      ensures forall p :: p in chunks <==> p in old(chunks) || (p.x == x && 0 - r <= p.z <= r && p != Pos(0, 0))
      ensures forall p :: sent[p] == old(sent)[p] + if p.x == x && 0 - r <= p.z <= r && p != Pos(0, 0) then 1 else 0
    {
      for z: int := 0 - r to r + 1
        invariant forall p :: p in chunks <==> p in old(chunks) || (p.x == x && 0 - r <= p.z < z && p != Pos(0, 0))
        invariant forall p :: sent[p] == old(sent)[p] + if p.x == x && 0 - r <= p.z < z && p != Pos(0, 0) then 1 else 0
      {
        if x == 0 && z == 0 { continue; }
        SendChunkAndLightUpdate(x, z, ready(Pos(x, z)));
      }
    }

    /** The login window around chunk (0, 0): the whole square, each chunk sent once, the centre first. */
    method SendInitialWindow(r: nat, ready: Pos -> bool)
      requires chunks == map[]
      modifies this
      ensures Held() == Square(Pos(0, 0), r)
      ensures forall p :: sent[p] == old(sent)[p] + if InSquare(p, Pos(0, 0), r) then 1 else 0
    {
      SendChunkAndLightUpdate(0, 0, ready(Pos(0, 0)));
      for x: int := 0 - r to r + 1
        invariant forall p :: p in chunks <==> p == Pos(0, 0) || (InSquare(p, Pos(0, 0), r) && p.x < x)
        invariant forall p :: sent[p] == old(sent)[p] + if p == Pos(0, 0) || (InSquare(p, Pos(0, 0), r) && p.x < x)
                    then 1 else 0
      {
        SendColumn(x, r, ready);
      }
    }
  }
}
