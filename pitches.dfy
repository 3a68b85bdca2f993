/** The rows of the Statcast table that the pitch plot reads, the boolean-mask
    selections made on them, and the conversion of a row to a plotted point. */
module Pitches {

  /** One pitch: who threw it, its type code, and its horizontal and vertical
      movement in feet from the catcher's view. */
  datatype PitchRecord = PitchRecord(playerName: string, pitchType: string, pfxX: real, pfxZ: real)

  /** The two string columns the plot selects on. */
  datatype Column = PlayerName | PitchType

  function Field(r: PitchRecord, c: Column): string {
    match c
    case PlayerName => r.playerName
    case PitchType => r.pitchType
  }

  /** The column `table[c]` as a sequence, one entry per row. */
  function ColumnValues(rows: seq<PitchRecord>, c: Column): (vs: seq<string>)
    ensures |vs| == |rows|
    ensures forall i :: 0 <= i < |rows| ==> vs[i] == Field(rows[i], c)
  {
    if rows == [] then [] else [Field(rows[0], c)] + ColumnValues(rows[1..], c)
  }

  /** The selection `table[table[c] == v]`: the rows whose column `c` equals `v`. */
  function Where(rows: seq<PitchRecord>, c: Column, v: string): (r: seq<PitchRecord>)
    ensures forall i :: 0 <= i < |r| ==> Field(r[i], c) == v
  {
    if rows == [] then []
    else (if Field(rows[0], c) == v then [rows[0]] else []) + Where(rows[1..], c, v)
  }

  /** The selection keeps every matching row as often as the table has it and
      drops every other row. */
  lemma {:induction false} WhereCount(rows: seq<PitchRecord>, c: Column, v: string, x: PitchRecord)
    ensures multiset(Where(rows, c, v))[x] == if Field(x, c) == v then multiset(rows)[x] else 0
  {
    if rows != [] {
      assert rows == [rows[0]] + rows[1..];
      WhereCount(rows[1..], c, v, x);
    }
  }

  /** A row is in the selection exactly when it is in the table and matches. */
  lemma WhereMembers(rows: seq<PitchRecord>, c: Column, v: string, x: PitchRecord)
    ensures x in Where(rows, c, v) <==> x in rows && Field(x, c) == v
  {
    WhereCount(rows, c, v, x);
    assert x in Where(rows, c, v) <==> x in multiset(Where(rows, c, v));
  }

  /** Selection keeps the original order: selecting from two consecutive
      stretches of rows gives the two selections one after the other. */
  lemma {:induction false} WhereAppend(a: seq<PitchRecord>, b: seq<PitchRecord>, c: Column, v: string)
    ensures Where(a + b, c, v) == Where(a, c, v) + Where(b, c, v)
  {
    if a == [] {
      assert a + b == b;
    } else {
      var head := if Field(a[0], c) == v then [a[0]] else [];
      var w1, w2 := Where(a[1..], c, v), Where(b, c, v);
      assert (a + b)[0] == a[0] && (a + b)[1..] == a[1..] + b;
      calc {
        Where(a + b, c, v);
        head + Where(a[1..] + b, c, v);
        { WhereAppend(a[1..], b, c, v); }
        head + (w1 + w2);
        (head + w1) + w2;
        Where(a, c, v) + w2;
      }
    }
  }

  /** A plotted point in inches, from the pitcher's perspective. */
  datatype Point = Point(x: real, y: real)

  /** The point `(pfx_x * -12, pfx_z * 12)` of a pitch: feet become inches and
      the horizontal axis is mirrored. */
  function ToPoint(r: PitchRecord): (p: Point)
    ensures r.pfxX == -p.x / 12.0 && r.pfxZ == p.y / 12.0
  {
    Point(r.pfxX * -12.0, r.pfxZ * 12.0)
  }

  /** The movement in feet `(pfx_x, pfx_z)` that a plotted point shows. */
  function Movement(p: Point): (m: (real, real))
    ensures m.0 * -12.0 == p.x && m.1 * 12.0 == p.y
  {
    (-p.x / 12.0, p.y / 12.0)
  }

  /** Reading a point back gives the movement it was drawn from. */
  lemma MovementOfPoint(r: PitchRecord)
    ensures Movement(ToPoint(r)) == (r.pfxX, r.pfxZ)
  {
  }

  /** Every point is drawn by the pitch whose movement it shows. */
  lemma PointOfMovement(p: Point, name: string, code: string)
    ensures ToPoint(PitchRecord(name, code, Movement(p).0, Movement(p).1)) == p
  {
  }

  /** The points of a selection of rows, one per row and in row order. */
  function Points(rows: seq<PitchRecord>): (ps: seq<Point>)
    ensures |ps| == |rows|
    ensures forall i :: 0 <= i < |rows| ==> ps[i] == ToPoint(rows[i])
  {
    if rows == [] then [] else [ToPoint(rows[0])] + Points(rows[1..])
  }

  /** Converting two stretches of rows gives their points one after the other. */
  lemma PointsAppend(a: seq<PitchRecord>, b: seq<PitchRecord>)
    ensures Points(a + b) == Points(a) + Points(b)
  {
  }

  /** Taking one row out of a stretch takes its point out of the points. */
  lemma {:induction false} RemoveOne(b: seq<PitchRecord>, i: nat)
    requires i < |b|
    ensures multiset(b) == multiset(b[..i] + b[i + 1..]) + multiset{b[i]}
    ensures multiset(Points(b)) == multiset(Points(b[..i] + b[i + 1..])) + multiset{ToPoint(b[i])}
  {
    assert b == b[..i] + [b[i]] + b[i + 1..];
    PointsAppend(b[..i] + [b[i]], b[i + 1..]);
    PointsAppend(b[..i], [b[i]]);
    PointsAppend(b[..i], b[i + 1..]);
  }

  /** The first row and its point, split off the front. */
  lemma RemoveHead(a: seq<PitchRecord>)
    requires a != []
    ensures multiset(a) == multiset(a[1..]) + multiset{a[0]}
    ensures multiset(Points(a)) == multiset(Points(a[1..])) + multiset{ToPoint(a[0])}
  {
    assert a == [a[0]] + a[1..];
  }

  /** A row of a permutation of `b` sits at some position of `b`. */
  lemma IndexOf(b: seq<PitchRecord>, x: PitchRecord) returns (i: nat)
    requires x in multiset(b)
    ensures i < |b| && b[i] == x
  {
    i :| 0 <= i < |b| && b[i] == x;
  }

  /** Adding the same row to two collections of rows keeps them apart or equal. */
  lemma Cancel(x: multiset<PitchRecord>, y: multiset<PitchRecord>, e: PitchRecord)
    requires x + multiset{e} == y + multiset{e}
    ensures x == y
  {
    assert x == (x + multiset{e}) - multiset{e};
    assert y == (y + multiset{e}) - multiset{e};
  }

  /** Rows that are a permutation of each other give points that are a
      permutation of each other. */
  lemma {:induction false} PointsOfPermutation(a: seq<PitchRecord>, b: seq<PitchRecord>)
    requires multiset(a) == multiset(b)
    ensures multiset(Points(a)) == multiset(Points(b))
    decreases |a|
  {
    if a != [] {
      var i := IndexOf(b, a[0]);
      var rest := b[..i] + b[i + 1..];
      RemoveOne(b, i);
      RemoveHead(a);
      Cancel(multiset(a[1..]), multiset(rest), a[0]);
      PointsOfPermutation(a[1..], rest);
    }
  }
}
