/**
 * The textured cube of code/chapter-03/texture-cube.py and code/textured-cube.py
 * (both files build the same tables with the same `cube()`, modelled once here):
 * 24 vertices (four per face, gathered from 8 corners and 4 texture corners)
 * and 36 indices (two triangles per face).
 */
module CubeMesh {
  import QuadIndex

  datatype P3 = P3(x: int, y: int, z: int)
  datatype T2 = T2(s: int, t: int)
  datatype Vertex = Vertex(position: P3, texcoord: T2)

  /** The 8 cube corners `p`. */
  const Corners: seq<P3> := [P3(1, 1, 1), P3(-1, 1, 1), P3(-1, -1, 1), P3(1, -1, 1),
                             P3(1, -1, -1), P3(1, 1, -1), P3(-1, 1, -1), P3(-1, -1, -1)]

  /** The 4 texture corners `t`. */
  const TexCorners: seq<T2> := [T2(0, 0), T2(0, 1), T2(1, 1), T2(1, 0)]

  const FacesP: seq<nat> := [0, 1, 2, 3,  0, 3, 4, 5,   0, 5, 6, 1,
                             1, 6, 7, 2,  7, 4, 3, 2,   4, 7, 6, 5]
  const FacesT: seq<nat> := [0, 1, 2, 3,  0, 1, 2, 3,   0, 1, 2, 3,
                             3, 2, 1, 0,  0, 1, 2, 3,   0, 1, 2, 3]

  /** The per-face triangle pattern `[0, 1, 2, 0, 2, 3]`. */
  const FacePattern: seq<nat> := [0, 1, 2, 0, 2, 3]

  /** numpy fancy indexing `table[idx]`. */
  function Gather<T>(table: seq<T>, idx: seq<nat>): (g: seq<T>)
    requires forall i | i in idx :: i < |table|
    ensures |g| == |idx|
    ensures forall k :: 0 <= k < |idx| ==> idx[k] in idx && g[k] == table[idx[k]]
  {
    seq(|idx|, k requires 0 <= k < |idx| => assert idx[k] in idx; table[idx[k]])
  }

  /** `np.resize(s, m)`: s repeated cyclically to length m. */
  function Resize(s: seq<nat>, m: nat): (r: seq<nat>)
    requires |s| > 0
  {
    seq(m, k requires 0 <= k < m => s[k % |s|])
  }

  /** `np.repeat(s, r)`: every entry of s repeated r times in place. */
  function Repeat(s: seq<nat>, r: nat): (q: seq<nat>)
    requires r > 0
  {
    seq(|s| * r, k requires 0 <= k < |s| * r => s[k / r])
  }

  /** `filled = resize(pattern, 36) + repeat(4 * arange(6), 6)`, elementwise. */
  function Filled(): (filled: seq<nat>)
    ensures |filled| == 36
    ensures filled == QuadIndex.QuadIndices(6, FacePattern)
    ensures forall k :: 0 <= k < 36 ==> filled[k] < 24 && filled[k] / 4 == k / 6
  {
    var base := Resize(FacePattern, 36);
    var offs := Repeat(seq(6, i requires 0 <= i < 6 => 4 * i), 6);
    var filled := seq(36, k requires 0 <= k < 36 => base[k] + offs[k]);
    assert filled == QuadIndex.QuadIndices(6, FacePattern) by {
      forall k | 0 <= k < 36
        ensures filled[k] == FacePattern[k % 6] + 4 * (k / 6)
      {
        assert base[k] == FacePattern[k % 6];
        assert offs[k] == 4 * (k / 6);
      }
    }
    QuadIndex.QuadIndicesBounded(6, FacePattern);
    filled
  }

  function Cube(): (mesh: (seq<Vertex>, seq<nat>))
    ensures |mesh.0| == 24 && |mesh.1| == 36
    ensures forall k :: 0 <= k < 24 ==>
      mesh.0[k] == Vertex(Corners[FacesP[k]], TexCorners[FacesT[k]])
    ensures forall k :: 0 <= k < 36 ==> mesh.1[k] < |mesh.0| && mesh.1[k] / 4 == k / 6
  {
    var pos := Gather(Corners, FacesP);
    var tex := Gather(TexCorners, FacesT);
    (seq(24, k requires 0 <= k < 24 => Vertex(pos[k], tex[k])), Filled())
  }

  function Coord(p: P3, axis: nat): int
    requires axis < 3
  {
    if axis == 0 then p.x else if axis == 1 then p.y else p.z
  }

  /** Corner j of face f: `faces_p[4f + j]`. */
  function FaceCorner(f: nat, j: nat): (v: nat)
    requires f < 6 && j < 4
    ensures v < |Corners|
  {
    FacesP[4 * f + j]
  }

  /** Face f lies in the plane coordinate[axis] == sign. */
  predicate OnPlane(f: nat, axis: nat, sign: int)
    requires f < 6 && axis < 3
  {
    forall j :: 0 <= j < 4 ==> Coord(Corners[FaceCorner(f, j)], axis) == sign
  }

  /** The face planes: +z, +x, +y, -x, -y, -z. */
  const FacePlanes: seq<(nat, int)> := [(2, 1), (0, 1), (1, 1), (0, -1), (1, -1), (2, -1)]

  /** Each block of four vertices lies on one face of the cube, and the six faces are distinct. */
  lemma FacesAreCubeFaces()
    ensures forall f :: 0 <= f < 6 ==> FacePlanes[f].0 < 3 && (FacePlanes[f].1 == 1 || FacePlanes[f].1 == -1)
    ensures forall f :: 0 <= f < 6 ==> OnPlane(f, FacePlanes[f].0, FacePlanes[f].1)
    ensures forall f, g :: 0 <= f < g < 6 ==> FacePlanes[f] != FacePlanes[g]
  {
    forall f | 0 <= f < 6
      ensures FacePlanes[f].0 < 3 && OnPlane(f, FacePlanes[f].0, FacePlanes[f].1)
    {
      FaceOnPlane(f);
    }
  }

  lemma FaceOnPlane(f: nat)
    requires f < 6
    ensures FacePlanes[f].0 < 3 && OnPlane(f, FacePlanes[f].0, FacePlanes[f].1)
  {
    forall j | 0 <= j < 4
      ensures Coord(Corners[FaceCorner(f, j)], FacePlanes[f].0) == FacePlanes[f].1
    {
      CornerOnPlane(f, j);
    }
  }

  lemma CornerOnPlane(f: nat, j: nat)
    requires f < 6 && j < 4
    ensures FacePlanes[f].0 < 3 && Coord(Corners[FaceCorner(f, j)], FacePlanes[f].0) == FacePlanes[f].1
  {
    var k := 4 * f + j;
    if k == 0 {} else if k == 1 {} else if k == 2 {} else if k == 3 {}
    else if k == 4 {} else if k == 5 {} else if k == 6 {} else if k == 7 {}
    else if k == 8 {} else if k == 9 {} else if k == 10 {} else if k == 11 {}
    else if k == 12 {} else if k == 13 {} else if k == 14 {} else if k == 15 {}
    else if k == 16 {} else if k == 17 {} else if k == 18 {} else if k == 19 {}
    else if k == 20 {} else if k == 21 {} else if k == 22 {} else {}
  }

  /** The texture corners of face f. */
  function FaceTex(f: nat): seq<nat>
    requires f < 6
  {
    FacesT[4 * f .. 4 * f + 4]
  }

  /** Each face uses each of the four texture corners, hence each exactly once. */
  lemma FaceTexturesArePermutations()
    ensures forall f, c :: 0 <= f < 6 && 0 <= c < 4 ==> c in FaceTex(f)
  {
    forall f, c | 0 <= f < 6 && 0 <= c < 4
      ensures c in FaceTex(f)
    {
      var j := if f == 3 then 3 - c else c;
      TexCornerAt(f, j);
      assert FaceTex(f)[j] == FacesT[4 * f + j];
    }
  }

  /** Faces other than the fourth list the texture corners in order 0..3; the fourth lists them reversed. */
  lemma TexCornerAt(f: nat, j: nat)
    requires f < 6 && j < 4
    ensures FacesT[4 * f + j] == if f == 3 then 3 - j else j
  {
    var k := 4 * f + j;
    if k == 0 {} else if k == 1 {} else if k == 2 {} else if k == 3 {}
    else if k == 4 {} else if k == 5 {} else if k == 6 {} else if k == 7 {}
    else if k == 8 {} else if k == 9 {} else if k == 10 {} else if k == 11 {}
    else if k == 12 {} else if k == 13 {} else if k == 14 {} else if k == 15 {}
    else if k == 16 {} else if k == 17 {} else if k == 18 {} else if k == 19 {}
    else if k == 20 {} else if k == 21 {} else if k == 22 {} else {}
  }
}
