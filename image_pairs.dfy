/**
 * The image-pairs view: two scatter plots ("Ratio" and "Demapper") that
 * cycle through pairs of point clouds read from a folder of numpy files,
 * one pair per tick. What `np.load` returns for a file is an input here;
 * only the list structure of the arrays is kept.
 */
module ImagePairs {
  import opened Common
  import opened PyStr
  import opened PyDict
  import opened Sorting

  // ================================================================ files

  datatype Complex = Complex(re: real, im: real)

  /** A numpy array: its shape, its entries in `ravel` order, and whether its dtype is complex. */
  datatype Array = Array(shape: seq<nat>, flat: seq<Complex>, isComplex: bool)

  /** What `np.load` gives for a file: an `.npz` archive of named arrays, one array, or an error. */
  datatype Content = Archive(arrays: Dict<string, Array>) | Single(arr: Array) | LoadError

  datatype FileEntry = FileEntry(name: string, content: Content)

  /** A folder's files, in directory order. */
  type Folder = seq<FileEntry>

  /** An entry of a list built by `tolist()`: a float, or a complex number from a complex array. */
  datatype Number = PyFloat(f: real) | PyComplex(z: Complex)

  /** One plot's points. */
  datatype Side = Side(x: seq<Number>, y: seq<Number>)

  /** `((left_x, left_y), (right_x, right_y))` */
  datatype Pair = Pair(left: Side, right: Side)

  const NoPoints: Side := Side([], [])

  /** `.real.tolist()` */
  function RealParts(v: seq<Complex>): (r: seq<real>)
    ensures |r| == |v| && forall i :: 0 <= i < |v| ==> r[i] == v[i].re
  {
    seq(|v|, i requires 0 <= i < |v| => v[i].re)
  }

  /** `.imag.tolist()` */
  function ImagParts(v: seq<Complex>): (r: seq<real>)
    ensures |r| == |v| && forall i :: 0 <= i < |v| ==> r[i] == v[i].im
  {
    seq(|v|, i requires 0 <= i < |v| => v[i].im)
  }

  /** Floats as list entries. */
  function Floats(v: seq<real>): (r: seq<Number>)
    ensures |r| == |v| && forall i :: 0 <= i < |v| ==> r[i] == PyFloat(v[i])
  {
    seq(|v|, i requires 0 <= i < |v| => PyFloat(v[i]))
  }

  /** `arr.ravel().tolist()`: the entries of a complex array stay complex, those of a real array are floats. */
  function ToList(v: seq<Complex>, isComplex: bool): (r: seq<Number>)
    ensures |r| == |v|
    ensures forall i :: 0 <= i < |v| ==> r[i] == if isComplex then PyComplex(v[i]) else PyFloat(v[i].re)
  {
    seq(|v|, i requires 0 <= i < |v| => if isComplex then PyComplex(v[i]) else PyFloat(v[i].re))
  }

  /** `s[lo:hi]` with Python's clamping of the bounds. */
  function Slice<T>(s: seq<T>, lo: nat, hi: nat): seq<T>
  {
    var l := if lo < |s| then lo else |s|;
    var h := if hi < |s| then hi else |s|;
    if l <= h then s[l..h] else []
  }

  /** `arr[i].ravel()` of a 2-D array. */
  function Row(a: Array, i: nat): seq<Complex>
    requires |a.shape| == 2
  {
    Slice(a.flat, i * a.shape[1], i * a.shape[1] + a.shape[1])
  }

  // ================================================================ load_pair_from_file

  /** The complex entries of two arrays as two clouds: real parts on x, imaginary parts on y. */
  function ComplexPair(a: Array, b: Array): Pair
  {
    Pair(Side(Floats(RealParts(a.flat)), Floats(ImagParts(a.flat))),
         Side(Floats(RealParts(b.flat)), Floats(ImagParts(b.flat))))
  }

  /** Two arrays, listed as they are, as the coordinates of the left cloud only. */
  function LeftOnly(x: seq<Complex>, xComplex: bool, y: seq<Complex>, yComplex: bool): Pair
  {
    Pair(Side(ToList(x, xComplex), ToList(y, yComplex)), NoPoints)
  }

  /** The `.npz` branch: the saved format, then `x`/`y`, then the first two arrays. */
  function ArchivePair(arrays: Dict<string, Array>): (r: Result<Pair>)
    ensures r.Raised? <==> |arrays| < 2 && (Get(arrays, "x").None? || Get(arrays, "y").None?)
    ensures r.Raised? ==> r.exc == ValueError
  {
    var ratio, demapper := Get(arrays, "ratio_batch"), Get(arrays, "demapper_batch");
    var x, y := Get(arrays, "x"), Get(arrays, "y");
    if ratio.Some? && demapper.Some? then
      Ok(ComplexPair(ratio.value, demapper.value))
    else if x.Some? && y.Some? then
      Ok(LeftOnly(x.value.flat, x.value.isComplex, y.value.flat, y.value.isComplex))
    else if |arrays| >= 2 then
      var a, b := arrays[0].1, arrays[1].1;
      if a.isComplex && b.isComplex then Ok(ComplexPair(a, b)) else Ok(LeftOnly(a.flat, a.isComplex, b.flat, b.isComplex))
    else
      assert ratio.None? || demapper.None? by {
        if ratio.Some? {
          assert "ratio_batch" in Keys(arrays);
          assert "demapper_batch" !in Keys(arrays);
        }
      }
      Raised(ValueError)
  }

  /**
   * `load_pair_from_file`: dispatch on the extension. An `.npz` path must
   * hold an archive, an `.npy` path a 2-D array with at least two rows
   * (its first two rows are x and y); anything else raises.
   */
  function LoadPair(path: string, content: Content): (r: Result<Pair>)
    ensures !EndsWith(path, ".npz") && !EndsWith(path, ".npy") ==> r == Raised(ValueError)
    ensures EndsWith(path, ".npz") && content.Archive? ==> r == ArchivePair(content.arrays)
    ensures !EndsWith(path, ".npz") && EndsWith(path, ".npy") && content.Single? ==>
              (r.Ok? <==> |content.arr.shape| == 2 && content.arr.shape[0] >= 2)
    ensures r.Ok? && !EndsWith(path, ".npz") ==> r.value.right == NoPoints
  {
    if EndsWith(path, ".npz") then
      match content
      case Archive(arrays) => ArchivePair(arrays)
      case Single(_) => Raised(AttributeError)  // an array has no `keys()`
      case LoadError => Raised(OSError)
    else if EndsWith(path, ".npy") then
      match content
      case Single(a) =>
        if |a.shape| == 2 && a.shape[0] >= 2 then Ok(LeftOnly(Row(a, 0), a.isComplex, Row(a, 1), a.isComplex))
        else Raised(ValueError)
      case Archive(_) => Raised(ValueError)  // `np.asarray` of an archive has no dimensions
      case LoadError => Raised(OSError)
    else Raised(ValueError)
  }

  /** A 2-D `.npy` file is plotted as its first row against its second, on the left. */
  lemma {:induction false} NpyRows(path: string, a: Array)
    requires EndsWith(path, ".npy") && !EndsWith(path, ".npz")
    requires |a.shape| == 2 && a.shape[0] >= 2 && |a.flat| == a.shape[0] * a.shape[1]
    ensures LoadPair(path, Single(a))
         == Ok(Pair(Side(ToList(a.flat[..a.shape[1]], a.isComplex), ToList(a.flat[a.shape[1]..2 * a.shape[1]], a.isComplex)), NoPoints))
  {
    LoadNpy(path, a);
    FirstRows(a);
  }

  lemma {:induction false} LoadNpy(path: string, a: Array)
    requires EndsWith(path, ".npy") && !EndsWith(path, ".npz")
    requires |a.shape| == 2 && a.shape[0] >= 2
    ensures LoadPair(path, Single(a)) == Ok(LeftOnly(Row(a, 0), a.isComplex, Row(a, 1), a.isComplex))
  {
  }

  lemma {:induction false} FirstRows(a: Array)
    requires |a.shape| == 2 && a.shape[0] >= 2 && |a.flat| == a.shape[0] * a.shape[1]
    ensures 2 * a.shape[1] <= |a.flat|
    ensures Row(a, 0) == a.flat[..a.shape[1]] && Row(a, 1) == a.flat[a.shape[1]..2 * a.shape[1]]
  {
    var n := a.shape[1];
    assert 2 * n <= a.shape[0] * n by {
      assert a.shape[0] * n == 2 * n + (a.shape[0] - 2) * n;
    }
  }

  // ================================================================ discover_pairs

  /** Lexicographic order on code points, as Python compares strings. */
  predicate StrLe(a: string, b: string)
    decreases |a|
  {
    |a| == 0 || (|b| > 0 && (a[0] < b[0] || (a[0] == b[0] && StrLe(a[1..], b[1..]))))
  }

  lemma {:induction false} StrLeTotal(a: string, b: string)
    ensures StrLe(a, b) || StrLe(b, a)
    decreases |a|
  {
    if |a| > 0 && |b| > 0 && a[0] == b[0] {
      StrLeTotal(a[1..], b[1..]);
    }
  }

  lemma {:induction false} StrLeTrans(a: string, b: string, c: string)
    requires StrLe(a, b) && StrLe(b, c)
    ensures StrLe(a, c)
    decreases |a|
  {
    if |a| > 0 && a[0] == b[0] && b[0] == c[0] {
      StrLeTrans(a[1..], b[1..], c[1..]);
    }
  }

  /** `sorted` on file names is a sort by a total preorder. */
  lemma {:induction false} StrLePreorder()
    ensures TotalPreorder(StrLe)
  {
    forall a: string, b: string ensures StrLe(a, b) || StrLe(b, a) {
      StrLeTotal(a, b);
    }
    forall a: string, b: string, c: string | StrLe(a, b) && StrLe(b, c) ensures StrLe(a, c) {
      StrLeTrans(a, b, c);
    }
  }

  /** `glob("*" + suffix)`: the names with that suffix, hidden files excepted. */
  function Glob(folder: Folder, suffix: string): (names: seq<string>)
    ensures forall i :: 0 <= i < |names| ==> EndsWith(names[i], suffix)
  {
    if |folder| == 0 then []
    else
      var name := folder[0].name;
      (if EndsWith(name, suffix) && !StartsWith(name, ".") then [name] else []) + Glob(folder[1..], suffix)
  }

  /** Whether a file of that name exists. */
  predicate Exists(folder: Folder, name: string)
  {
    exists i :: 0 <= i < |folder| && folder[i].name == name
  }

  /** What `np.load` gives for a path: the first entry of that name. */
  function ContentOf(folder: Folder, name: string): Content
  {
    if |folder| == 0 then LoadError
    else if folder[0].name == name then folder[0].content
    else ContentOf(folder[1..], name)
  }

  /** The loop over `.npz` files: each one that loads adds its pair, the others are skipped. */
  function NpzPairs(folder: Folder, names: seq<string>): (r: seq<Pair>)
    ensures |r| <= |names|
  {
    if |names| == 0 then []
    else
      var loaded := LoadPair(names[0], ContentOf(folder, names[0]));
      (if loaded.Ok? then [loaded.value] else []) + NpzPairs(folder, names[1..])
  }

  /** `xf.replace("_x.npy", "_y.npy")`: the name of an `_x.npy` file's partner. */
  function PartnerName(xf: string): string
  {
    Replace(xf, "_x.npy", "_y.npy")
  }

  /** `np.load(f).ravel().tolist()` */
  function FlatList(c: Content): Result<seq<Number>>
  {
    match c
    case Single(a) => Ok(ToList(a.flat, a.isComplex))
    case Archive(_) => Raised(AttributeError)
    case LoadError => Raised(OSError)
  }

  /** The loop over `_x.npy` files: one left-only pair per file whose partner exists and both load. */
  function NpyPairs(folder: Folder, names: seq<string>): (r: seq<Pair>)
    ensures |r| <= |names|
    ensures forall i :: 0 <= i < |r| ==> r[i].right == NoPoints
  {
    if |names| == 0 then []
    else
      var yf := PartnerName(names[0]);
      var x, y := FlatList(ContentOf(folder, names[0])), FlatList(ContentOf(folder, yf));
      (if Exists(folder, yf) && x.Ok? && y.Ok? then [Pair(Side(x.value, y.value), NoPoints)] else [])
      + NpyPairs(folder, names[1..])
  }

  /** The `.npz` files in the order they are read. */
  function NpzNames(folder: Folder): seq<string>
  {
    Sort(Glob(folder, ".npz"), StrLe)
  }

  /** The `_x.npy` files in the order they are read. */
  function NpyNames(folder: Folder): seq<string>
  {
    Sort(Glob(folder, "_x.npy"), StrLe)
  }

  /**
   * `discover_pairs`: the pairs of the `.npz` files, then those of the
   * `_x.npy`/`_y.npy` files; when there are none, the two synthetic
   * pairs (a sine and a cosine curve, given here as `sine` and `cosine`).
   */
  function DiscoverPairs(folder: Folder, sine: Side, cosine: Side): (r: seq<Pair>)
    ensures |r| > 0
    ensures var found := NpzPairs(folder, NpzNames(folder)) + NpyPairs(folder, NpyNames(folder));
            r == if |found| == 0 then [Pair(sine, NoPoints), Pair(cosine, NoPoints)] else found
  {
    var pairs := NpzPairs(folder, NpzNames(folder)) + NpyPairs(folder, NpyNames(folder));
    if |pairs| == 0 then [Pair(sine, NoPoints), Pair(cosine, NoPoints)] else pairs
  }

  /** Both groups of files are read in sorted name order, and every file globbed is read once. */
  lemma {:induction false} DiscoverOrder(folder: Folder)
    ensures SortedBy(NpzNames(folder), StrLe) && multiset(NpzNames(folder)) == multiset(Glob(folder, ".npz"))
    ensures SortedBy(NpyNames(folder), StrLe) && multiset(NpyNames(folder)) == multiset(Glob(folder, "_x.npy"))
  {
    StrLePreorder();
    SortSorted(Glob(folder, ".npz"), StrLe);
    SortSorted(Glob(folder, "_x.npy"), StrLe);
  }

  /** When every `.npz` file loads, there is one pair per file, in the order of the names. */
  lemma {:induction false} NpzAllLoad(folder: Folder, names: seq<string>)
    requires forall i :: 0 <= i < |names| ==> LoadPair(names[i], ContentOf(folder, names[i])).Ok?
    ensures |NpzPairs(folder, names)| == |names|
    ensures forall i :: 0 <= i < |names| ==>
              NpzPairs(folder, names)[i] == LoadPair(names[i], ContentOf(folder, names[i])).value
  {
    if |names| > 0 {
      assert forall i :: 1 <= i < |names| ==> names[1..][i - 1] == names[i];
      NpzAllLoad(folder, names[1..]);
    }
  }

  /** A file that fails to load is skipped: the others' pairs are as if it were absent. */
  lemma {:induction false} NpzSkip(folder: Folder, names: seq<string>, k: nat)
    requires k < |names| && LoadPair(names[k], ContentOf(folder, names[k])).Raised?
    ensures NpzPairs(folder, names) == NpzPairs(folder, names[..k] + names[k + 1..])
  {
    if k > 0 {
      NpzSkip(folder, names[1..], k - 1);
      assert names[1..][..k - 1] + names[1..][k..] == (names[..k] + names[k + 1..])[1..];
    } else {
      assert names[..k] + names[k + 1..] == names[1..];
    }
  }

  /** An `_x.npy` file whose `_y.npy` partner does not exist contributes nothing. */
  lemma {:induction false} NpySkip(folder: Folder, names: seq<string>, k: nat)
    requires k < |names| && !Exists(folder, PartnerName(names[k]))
    ensures NpyPairs(folder, names) == NpyPairs(folder, names[..k] + names[k + 1..])
  {
    if k > 0 {
      NpySkip(folder, names[1..], k - 1);
      assert names[1..][..k - 1] + names[1..][k..] == (names[..k] + names[k + 1..])[1..];
    } else {
      assert names[..k] + names[k + 1..] == names[1..];
    }
  }

  /**
   * The partner of `<base>_x.npy` is `<base>_y.npy` whenever `_x.npy` does
   * not already occur in the base (`replace` rewrites every occurrence).
   */
  lemma {:induction false} PartnerOf(base: string)
    requires !Occurs(base, "_x.npy")
    ensures PartnerName(base + "_x.npy") == base + "_y.npy"
  {
    var pat := "_x.npy";
    var s := base + pat;
    forall i | 0 <= i < |base|
      ensures !MatchAt(s, pat, i)
    {
      if i + |pat| <= |base| {
        assert s[i..][..|pat|] == base[i..][..|pat|];
        if MatchAt(s, pat, i) {
          assert MatchAt(base, pat, i);
          assert false;
        }
      } else {
        // the match would straddle the end of the base: the `_` of the
        // suffix would sit at a position of the pattern holding no `_`
        var m := |base| - i;
        assert 0 < m < |pat|;
        assert s[i..][m] == s[|base|] == '_';
        assert pat[m] != '_';
      }
    }
    ReplaceNoMatch(base, pat, pat, "_y.npy");
    ReplaceHere(pat, "", "_y.npy");
    assert pat + "" == pat;
  }

  // ================================================================ the view

  /** What a plot shows for one side of a pair: its points, or nothing if either list is empty. */
  function Shown(s: Side): (r: Side)
    ensures r == s || r == NoPoints
    ensures r == s <==> (|s.x| > 0 && |s.y| > 0) || s == NoPoints
  {
    if |s.x| > 0 && |s.y| > 0 then s else NoPoints
  }

  /** The two sources, the pair list and the counter `state["idx"]`. */
  class ImagePairsView {
    const pairs: seq<Pair>
    var idx: nat
    var left: Side
    var right: Side

    /**
     * `image_pairs_app(doc)`: discover the pairs, start with empty
     * sources and populate them once straight away.
     */
    constructor (folder: Folder, sine: Side, cosine: Side)
      ensures pairs == DiscoverPairs(folder, sine, cosine)
      ensures idx == 1 && left == Shown(pairs[0].left) && right == Shown(pairs[0].right)
    {
      var discovered := DiscoverPairs(folder, sine, cosine);
      pairs := discovered;
      idx := 0;
      left, right := NoPoints, NoPoints;
      new;
      assert |pairs| > 0 && 0 % |pairs| == 0;
      Update();
    }

    /**
     * `update`: show the pair at `idx mod len(pairs)` and move on by one;
     * with no pairs, do nothing.
     */
    method Update()
      modifies this`idx, this`left, this`right
      ensures |pairs| == 0 ==> idx == old(idx) && left == old(left) && right == old(right)
      ensures |pairs| > 0 ==> idx == old(idx) + 1
      ensures |pairs| > 0 ==> left == Shown(pairs[old(idx) % |pairs|].left)
      ensures |pairs| > 0 ==> right == Shown(pairs[old(idx) % |pairs|].right)
    {
      if |pairs| == 0 {
        return;
      }
      var pair := pairs[idx % |pairs|];
      if |pair.right.x| > 0 && |pair.right.y| > 0 {
        right := pair.right;
      } else {
        right := NoPoints;
      }
      if |pair.left.x| > 0 && |pair.left.y| > 0 {
        left := pair.left;
      } else {
        left := NoPoints;
      }
      idx := idx + 1;
    }
  }
}
