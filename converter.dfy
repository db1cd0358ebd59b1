/** The `Converter` helpers: assimp values to glm values, and a 4x4 matrix
    to and from a string of sixteen '#'-separated numbers.

    Number formatting (`std::to_string`) and number parsing (`std::stof`)
    are parameters: `fmt` turns a real into its text, and `parse` gives the
    number a text starts with, or None where `std::stof` throws. */
module Converters {
  import opened Results
  import opened Linear

  /** assimp's row-major matrix: `a1..a4` is row 0, `d1..d4` is row 3. */
  datatype AiMatrix = AiMatrix(
    a1: real, a2: real, a3: real, a4: real,
    b1: real, b2: real, b3: real, b4: real,
    c1: real, c2: real, c3: real, c4: real,
    d1: real, d2: real, d3: real, d4: real)

  /** The element of an assimp matrix at a row and a column. */
  function At(m: AiMatrix, row: nat, col: nat): real
    requires row < 4 && col < 4
  {
    var rows := [[m.a1, m.a2, m.a3, m.a4], [m.b1, m.b2, m.b3, m.b4],
                 [m.c1, m.c2, m.c3, m.c4], [m.d1, m.d2, m.d3, m.d4]];
    rows[row][col]
  }

  datatype AiVector3D = AiVector3D(x: real, y: real, z: real)

  /** assimp stores a quaternion's scalar part first as well. */
  datatype AiQuaternion = AiQuaternion(w: real, x: real, y: real, z: real)

  /** `convertMatrix2GLMFormat`: the same matrix, now stored by columns, so
      glm's column j, row i is assimp's row i, column j. */
  function ConvertMatrixToGlm(src: AiMatrix): (r: Mat4)
    ensures forall i, j :: 0 <= i < 4 && 0 <= j < 4 ==> r[j][i] == At(src, i, j)
  {
    FromColumns([src.a1, src.b1, src.c1, src.d1], [src.a2, src.b2, src.c2, src.d2],
                [src.a3, src.b3, src.c3, src.d3], [src.a4, src.b4, src.c4, src.d4])
  }

  /** `getGLMVec` */
  function GetGlmVec(v: AiVector3D): (r: Vec3)
    ensures r.x == v.x && r.y == v.y && r.z == v.z
  {
    Vec3(v.x, v.y, v.z)
  }

  /** `getGLMQuat`: glm's constructor takes w first, and every component
      keeps its value. */
  function GetGlmQuat(q: AiQuaternion): (r: Quat)
    ensures r.w == q.w && r.x == q.x && r.y == q.y && r.z == q.z
  {
    Quat(q.w, q.x, q.y, q.z)
  }

  // ---------------------------------------------------------------------
  // Serialising

  /** Field k of the text: the matrix read row by row, `src[k % 4][k / 4]`. */
  function Fields(fmt: real -> string, src: Mat4): (fs: seq<string>)
    ensures |fs| == 16
    ensures forall k :: 0 <= k < 16 ==> fs[k] == fmt(src[k % 4][k / 4])
  {
    seq(16, k requires 0 <= k < 16 => fmt(src[k % 4][k / 4]))
  }

  /** The fields with one '#' between each two. */
  function Join(fs: seq<string>): string
  {
    if |fs| == 0 then ""
    else if |fs| == 1 then fs[0]
    else fs[0] + "#" + Join(fs[1..])
  }

  /** `convertMatrix2String` */
  function MatrixToString(fmt: real -> string, src: Mat4): string
  {
    Join(Fields(fmt, src))
  }

  // ---------------------------------------------------------------------
  // Splitting as `std::getline(ss, item, '#')` does

  /** The position of the first '#', or the length when there is none. */
  function FindHash(s: string): (e: nat)
    ensures e <= |s|
    ensures e < |s| ==> s[e] == '#'
    ensures forall j :: 0 <= j < e ==> s[j] != '#'
  {
    if |s| == 0 || s[0] == '#' then 0 else 1 + FindHash(s[1..])
  }

  /** The items successive `getline` calls on a stream over `s` deliver: the
      text up to each '#', where a call at the end of the stream fails, so
      a '#' at the very end does not produce an empty last item. */
  function Items(s: string): seq<string>
    decreases |s|
  {
    if |s| == 0 then []
    else
      var e := FindHash(s);
      [s[..e]] + (if e < |s| then Items(s[e + 1..]) else [])
  }

  /** One `getline` call: the first item, then the items of what follows it. */
  lemma ItemsHead(s: string)
    requires |s| > 0
    ensures var e := FindHash(s);
            Items(s) == [s[..e]] + (if e < |s| then Items(s[e + 1..]) else [])
  {
  }

  lemma FindHashJoined(a: string, b: string)
    requires forall j :: 0 <= j < |a| ==> a[j] != '#'
    ensures FindHash(a + "#" + b) == |a|
  {
    var s := a + "#" + b;
    assert s[|a|] == '#';
    assert forall j :: 0 <= j < |a| ==> s[j] == a[j];
  }

  lemma FindHashWhole(a: string)
    requires forall j :: 0 <= j < |a| ==> a[j] != '#'
    ensures FindHash(a) == |a|
  {
  }

  /** Splitting the joined fields gives the fields back, as long as no field
      holds a '#' and the last one is not empty. */
  lemma {:induction false} ItemsOfJoin(fs: seq<string>)
    requires |fs| > 0 && |fs[|fs| - 1]| > 0
    requires forall k, j :: 0 <= k < |fs| && 0 <= j < |fs[k]| ==> fs[k][j] != '#'
    ensures Items(Join(fs)) == fs
    decreases |fs|
  {
    if |fs| == 1 {
      FindHashWhole(fs[0]);
      assert fs[0][..|fs[0]|] == fs[0];
    } else {
      var a := fs[0];
      var rest := Join(fs[1..]);
      var s := a + "#" + rest;
      assert Join(fs) == s;
      FindHashJoined(a, rest);
      assert s[..|a|] == a;
      assert s[|a| + 1..] == rest;
      ItemsOfJoin(fs[1..]);
      assert [a] + fs[1..] == fs;
    }
  }

  /** No formatted number contains a '#' and none is empty, as holds for
      `std::to_string`. */
  ghost predicate PlainFormat(fmt: real -> string)
  {
    forall x: real :: |fmt(x)| > 0 && forall j :: 0 <= j < |fmt(x)| ==> fmt(x)[j] != '#'
  }

  /** `convertMatrix2String` emits exactly sixteen fields, field k holding
      the formatted `src[k % 4][k / 4]`. */
  lemma MatrixToStringFields(fmt: real -> string, src: Mat4)
    requires PlainFormat(fmt)
    ensures var items := Items(MatrixToString(fmt, src));
            |items| == 16 &&
            forall k :: 0 <= k < 16 ==> items[k] == fmt(src[k % 4][k / 4])
  {
    var fs := Fields(fmt, src);
    forall k | 0 <= k < 16
      ensures |fs[k]| > 0 && forall j :: 0 <= j < |fs[k]| ==> fs[k][j] != '#'
    {
      var x := src[k % 4][k / 4];
      assert fs[k] == fmt(x);
      assert |fmt(x)| > 0 && forall j :: 0 <= j < |fmt(x)| ==> fmt(x)[j] != '#';
    }
    ItemsOfJoin(fs);
  }

  // ---------------------------------------------------------------------
  // Parsing

  /** Writes `v` where `convertString2Matrix` puts field k: `dst[k / 4][k % 4]`. */
  function SetField(m: Mat4, k: nat, v: real): (r: Mat4)
    requires k < 16
    ensures forall c, w :: 0 <= c < 4 && 0 <= w < 4 ==>
              r[c][w] == (if 4 * c + w == k then v else m[c][w])
  {
    m[k / 4 := m[k / 4][k % 4 := v]]
  }

  /** The outcome of feeding fields i, i+1, ... up to the sixteenth into a
      matrix that holds `m`. */
  function ParseFields(parse: string -> Option<real>, m: Mat4, fs: seq<string>, i: nat): Result<Mat4>
    requires i <= 16
    decreases 16 - i
  {
    if i == 16 || i >= |fs| then Ok(m)
    else match parse(fs[i])
      case None => Err(NotANumber)
      case Some(v) => ParseFields(parse, SetField(m, i, v), fs, i + 1)
  }

  /** What `convertString2Matrix` returns; `init` is whatever the
      default-constructed `dst` holds before the loop. */
  function StringToMatrix(parse: string -> Option<real>, init: Mat4, src: string): Result<Mat4>
  {
    ParseFields(parse, init, Items(src), 0)
  }

  /** The parse fails exactly when one of the fields it reads is not a
      number; otherwise field k is stored at `[k / 4][k % 4]` and slots
      without a field keep their value. */
  lemma {:induction false} ParseFieldsMeaning(parse: string -> Option<real>, m: Mat4, fs: seq<string>, i: nat)
    requires i <= 16
    ensures var r := ParseFields(parse, m, fs, i);
            (r.Err? <==> exists k :: i <= k < 16 && k < |fs| && parse(fs[k]).None?) &&
            (r.Err? ==> r.error == NotANumber) &&
            (r.Ok? ==> forall c, w :: 0 <= c < 4 && 0 <= w < 4 ==>
               r.value[c][w] == (if i <= 4 * c + w < |fs| then parse(fs[4 * c + w]).value else m[c][w]))
    decreases 16 - i
  {
    if i == 16 || i >= |fs| {
    } else if parse(fs[i]).None? {
    } else {
      var v := parse(fs[i]).value;
      ParseFieldsMeaning(parse, SetField(m, i, v), fs, i + 1);
      var r := ParseFields(parse, m, fs, i);
      if r.Ok? {
        forall c, w | 0 <= c < 4 && 0 <= w < 4
          ensures r.value[c][w] == (if i <= 4 * c + w < |fs| then parse(fs[4 * c + w]).value else m[c][w])
        {
        }
      }
      if !r.Err? {
        forall k | i <= k < 16 && k < |fs|
          ensures parse(fs[k]).Some?
        {
          if k > i {
            assert i + 1 <= k;
          }
        }
      }
    }
  }

  /** Fields after the sixteenth are never looked at. */
  lemma {:induction false} ParseFieldsIgnoresTail(parse: string -> Option<real>, m: Mat4, fs: seq<string>, tail: seq<string>, i: nat)
    requires i <= 16 && |fs| >= 16
    ensures ParseFields(parse, m, fs + tail, i) == ParseFields(parse, m, fs, i)
    decreases 16 - i
  {
    if i < 16 {
      assert (fs + tail)[i] == fs[i];
      match parse(fs[i])
      case None =>
      case Some(v) => ParseFieldsIgnoresTail(parse, SetField(m, i, v), fs, tail, i + 1);
    }
  }

  /** Parsing a serialised matrix gives its transpose when parsing a
      formatted number gives that number back; with `std::to_string`'s six
      decimals it gives the transpose of the rounded entries. */
  lemma RoundTripTransposes(fmt: real -> string, parse: string -> Option<real>, init: Mat4, src: Mat4)
    requires PlainFormat(fmt)
    requires forall x: real :: parse(fmt(x)) == Some(x)
    ensures StringToMatrix(parse, init, MatrixToString(fmt, src)) == Ok(Transpose(src))
  {
    var items := Items(MatrixToString(fmt, src));
    MatrixToStringFields(fmt, src);
    forall k | 0 <= k < 16
      ensures parse(items[k]) == Some(src[k % 4][k / 4])
    {
      var x := src[k % 4][k / 4];
      assert items[k] == fmt(x);
      assert parse(fmt(x)) == Some(x);
    }
    ParseFieldsMeaning(parse, init, items, 0);
    var r := StringToMatrix(parse, init, MatrixToString(fmt, src));
    assert r.Ok?;
    forall c, w | 0 <= c < 4 && 0 <= w < 4
      ensures r.value[c][w] == Transpose(src)[c][w]
    {
      var k := 4 * c + w;
      SlotOfField(c, w);
      assert parse(items[k]) == Some(src[w][c]);
    }
    MatEq(r.value, Transpose(src));
  }

  /** Field 4c + w is the one stored at `[c][w]`. */
  lemma SlotOfField(c: int, w: int)
    requires 0 <= c < 4 && 0 <= w < 4
    ensures (4 * c + w) % 4 == w && (4 * c + w) / 4 == c
  {
  }

  /** Two matrices with the same entries are the same matrix. */
  lemma MatEq(a: Mat4, b: Mat4)
    requires forall c, w :: 0 <= c < 4 && 0 <= w < 4 ==> a[c][w] == b[c][w]
    ensures a == b
  {
    forall c | 0 <= c < 4 ensures a[c] == b[c] {
      assert |a[c]| == 4 && |b[c]| == 4;
    }
  }

  /** `convertString2Matrix`: reads items off the stream while there are
      any; the first sixteen are parsed into `dst[i / 4][i % 4]`, and the
      loop breaks at the seventeenth. */
  method ConvertStringToMatrix(parse: string -> Option<real>, init: Mat4, src: string) returns (r: Result<Mat4>)
    ensures r == StringToMatrix(parse, init, src)
  {
    var dst := init;
    var rest := src;
    var i := 0;
    ghost var read: seq<string> := [];
    while |rest| > 0
      invariant i <= 16 && i == |read|
      invariant Items(src) == read + Items(rest)
      invariant ParseFields(parse, dst, Items(src), i) == StringToMatrix(parse, init, src)
      decreases |rest|
    {
      var e := FindHash(rest);
      var item := rest[..e];
      ItemsHead(rest);
      rest := if e < |rest| then rest[e + 1..] else "";
      assert Items(src) == (read + [item]) + Items(rest);
      if i < 16 {
        assert Items(src)[i] == item;
        var v := parse(item);
        if v.None? {
          return Err(NotANumber);
        }
        dst := SetField(dst, i, v.value);
        i := i + 1;
        read := read + [item];
      } else {
        break;
      }
    }
    assert i == 16 || i >= |Items(src)|;
    r := Ok(dst);
  }
}
