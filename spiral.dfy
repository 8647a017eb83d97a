/** code/chapter-08/sdf-marker-spiral.py: 150 SDF markers laid out along a spiral. */
module SdfMarkerSpiral {
  import opened Wrappers
  import QuadIndex

  /** One field of a numpy record dtype: name and component count. */
  datatype Field = Field(name: string, count: nat)

  datatype DtypeError = DuplicateField(name: string)

  predicate DistinctNames(fields: seq<Field>)
  {
    forall i, j :: 0 <= i < j < |fields| ==> fields[i].name != fields[j].name
  }

  /**
   * Building a record dtype: numpy refuses a list in which a field name occurs
   * twice; otherwise the record holds the sum of the field component counts.
   */
  function RecordDtype(fields: seq<Field>): (r: Result<nat, DtypeError>)
    ensures r.Ok? <==> DistinctNames(fields)
    ensures r.Err? ==> exists i, j :: 0 <= i < j < |fields| && fields[i].name == fields[j].name == r.error.name
  {
    if fields == [] then Ok(0)
    else if exists j :: 1 <= j < |fields| && fields[j].name == fields[0].name then
      Err(DuplicateField(fields[0].name))
    else
      match RecordDtype(fields[1..])
      case Err(e) => Err(e)
      case Ok(size) =>
        assert DistinctNames(fields) by {
          forall i, j | 0 <= i < j < |fields| ensures fields[i].name != fields[j].name {
            if i > 0 { assert fields[1..][i - 1] == fields[i] && fields[1..][j - 1] == fields[j]; }
          }
        }
        Ok(fields[0].count + size)
  }

  /** The dtype as written: 'size' is declared twice. */
  const MarkerFieldsAsWritten: seq<Field> :=
    [Field("position", 2), Field("size", 1), Field("size", 1), Field("orientation", 1), Field("texcoord", 2)]

  /** The dtype the loop below writes to: each field once. */
  const MarkerFields: seq<Field> :=
    [Field("position", 2), Field("size", 1), Field("orientation", 1), Field("texcoord", 2)]

  lemma MarkerDtypeAsWrittenRejected()
    ensures RecordDtype(MarkerFieldsAsWritten) == Err(DuplicateField("size"))
  {
    var w := MarkerFieldsAsWritten;
    var rest := [Field("size", 1), Field("size", 1), Field("orientation", 1), Field("texcoord", 2)];
    assert w[1..] == rest;
    assert RecordDtype(rest) == Err(DuplicateField("size")) by {
      assert rest[1].name == rest[0].name;
    }
    forall j | 0 <= j < |rest| ensures rest[j].name != w[0].name {
      if j < 3 {
        assert |rest[j].name| != |w[0].name|;
      } else {
        assert rest[j].name[0] != w[0].name[0];
      }
    }
    DuplicateInTail(w, DuplicateField("size"));
  }

  /** A first field whose name recurs nowhere leaves the verdict to the remaining fields. */
  lemma DuplicateInTail(fields: seq<Field>, e: DtypeError)
    requires |fields| >= 1 && forall j :: 0 <= j < |fields[1..]| ==> fields[1..][j].name != fields[0].name
    requires RecordDtype(fields[1..]) == Err(e)
    ensures RecordDtype(fields) == Err(e)
  {
    forall j | 1 <= j < |fields| ensures fields[j].name != fields[0].name {
      assert fields[j] == fields[1..][j - 1];
    }
  }

  lemma MarkerDtypeAccepted()
    ensures RecordDtype(MarkerFields) == Ok(6)
  {
    assert DistinctNames(MarkerFields);
  }

  /** One marker: its four vertices share everything but the texture corner. */
  datatype Marker = Marker(x: real, y: real, size: real, orientation: real, texcoord: seq<(real, real)>)

  const Count: nat := 150
  const StartRadius: real := 245.0
  const RadiusStep: real := 1.25

  /** dtheta = 10° in radians, given π. */
  function DTheta(pi: real): real { 10.0 / 180.0 * pi }

  /** The marker size of marker i, twice r = 20.1 - 0.12 i. */
  function MarkerSize(i: nat): real { 2.0 * (20.1 - (i as real) * 0.12) }

  /** Marker i in closed form: theta = (i+1)·dtheta, spiral radius 245 - 1.25 i. */
  function MarkerAt(i: nat, cos: real -> real, sin: real -> real, pi: real): (m: Marker)
    ensures m.orientation - pi == (i + 1) as real * DTheta(pi)
    ensures m.size == MarkerSize(i)
  {
    var theta := (i + 1) as real * DTheta(pi);
    var radius := StartRadius - (i as real) * RadiusStep;
    Marker(256.0 + radius * cos(theta), 256.0 + radius * sin(theta), MarkerSize(i), theta + pi,
           [(0.0, 1.0), (0.0, 0.0), (1.0, 1.0), (1.0, 0.0)])
  }

  /** The spiral loop: theta and radius are running accumulators written row by row. */
  method FillSpiral(data: array<Marker>, cos: real -> real, sin: real -> real, pi: real)
    modifies data
    ensures forall i :: 0 <= i < data.Length ==> data[i] == MarkerAt(i, cos, sin, pi)
  {
    var radius, theta, dtheta := StartRadius, 0.0, DTheta(pi);
    var i := 0;
    while i < data.Length
      invariant 0 <= i <= data.Length
      invariant theta == (i as real) * dtheta
      invariant radius == StartRadius - (i as real) * RadiusStep
      invariant forall k :: 0 <= k < i ==> data[k] == MarkerAt(k, cos, sin, pi)
    {
      theta := theta + dtheta;
      assert theta == (i + 1) as real * dtheta;
      assert radius == StartRadius - (i as real) * RadiusStep;
      var x := 256.0 + radius * cos(theta);
      var y := 256.0 + radius * sin(theta);
      var r := 20.1 - (i as real) * 0.12;
      radius := radius - RadiusStep;
      data[i] := Marker(x, y, 2.0 * r, theta + pi, [(0.0, 1.0), (0.0, 0.0), (1.0, 1.0), (1.0, 0.0)]);
      ghost var th := (i + 1) as real * DTheta(pi);
      assert th == theta;
      assert cos(th) == cos(theta);
      assert x == 256.0 + (StartRadius - (i as real) * RadiusStep) * cos(th);
      assert MarkerAt(i, cos, sin, pi).x == x;
      assert data[i] == MarkerAt(i, cos, sin, pi);
      i := i + 1;
    }
  }

  /** Over the 150 markers, sizes are positive and strictly decreasing and the spiral radius stays positive. */
  lemma SpiralBounds(i: nat, j: nat)
    requires i < j < Count
    ensures MarkerSize(j) < MarkerSize(i)
    ensures MarkerSize(j) > 0.0 && MarkerSize(i) > 0.0
    ensures StartRadius - (j as real) * RadiusStep > 0.0
  {}

  /** Consecutive markers turn by exactly 10°. */
  lemma SpiralTurn(i: nat, cos: real -> real, sin: real -> real, pi: real)
    ensures MarkerAt(i + 1, cos, sin, pi).orientation - MarkerAt(i, cos, sin, pi).orientation == DTheta(pi)
  {}

  /** `I[:] = [0,1,2,1,2,3]; I += 4*arange(n)`. */
  function Indices(n: nat): (I: seq<nat>)
    ensures |I| == 6 * n
    ensures forall k :: 0 <= k < 6 * n ==> I[k] < 4 * n
    ensures forall k :: 0 <= k < 6 * n ==> 4 * (k / 6) <= I[k] < 4 * (k / 6) + 4
  {
    QuadIndex.QuadIndicesBounded(n, [0, 1, 2, 1, 2, 3]);
    QuadIndex.QuadIndices(n, [0, 1, 2, 1, 2, 3])
  }
}
