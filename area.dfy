/** area.py: one map. Its base image size, the passability grid derived from
    a black-and-white image, the map's doodads in drawing order and the
    trainer's start tile. File loading (JSON map data, PNG images) is not
    part of this model: the decoded data are inputs. */
module Areas {
  import opened Vector
  import opened Doodads

  /** One `doodads` entry of the map data: a doodad type placed at several
      locations. */
  datatype DoodadEntry = DoodadEntry(kind: string, locations: seq<Vec>, showInFront: bool)

  /** The part of the map data this model uses. */
  datatype MapData = MapData(doodads: seq<DoodadEntry>, startLocation: Vec)

  /** `passable[x][y]`, indexed x-major like `pygame.surfarray`. */
  datatype Area = Area(
    baseSize: (int, int),
    passable: seq<seq<bool>>,
    doodads: seq<Doodad>,
    startLocation: Vec)

  function GridHeight(g: seq<seq<bool>>): nat {
    if |g| == 0 then 0 else |g[0]|
  }

  /** The grid is rectangular, as a pixel array is. */
  predicate Rectangular<T>(g: seq<seq<T>>) {
    forall i :: 0 <= i < |g| ==> |g[i]| == |g[0]|
  }

  predicate Valid(a: Area) {
    Rectangular(a.passable)
  }

  /** `dimensions`: the base image's size in pixels, as recorded when the
      area was loaded. */
  function Dimensions(a: Area): (r: (int, int))
    ensures r == a.baseSize
  {
    a.baseSize
  }

  // ----- passability -----

  /** The passability step of `load_resources`: a cell is passable exactly
      when its pixel is not black (black is 0). */
  function PassableGrid(pixels: seq<seq<int>>): (g: seq<seq<bool>>)
    requires Rectangular(pixels)
    ensures |g| == |pixels| && Rectangular(g) && GridHeight(g) == (if |pixels| == 0 then 0 else |pixels[0]|)
    ensures forall x, y :: 0 <= x < |g| && 0 <= y < |g[x]| ==> (g[x][y] <==> pixels[x][y] != 0)
  {
    seq(|pixels|, x requires 0 <= x < |pixels| =>
      seq(|pixels[x]|, y requires 0 <= y < |pixels[x]| => pixels[x][y] != 0))
  }

  /** Python accepts an index into a list of length `n` exactly when
      `-n <= i < n`; a negative index counts from the end. */
  predicate PyIndexable(i: int, n: nat) {
    -(n as int) <= i < n
  }

  function PyIndex(i: int, n: nat): (k: nat)
    requires PyIndexable(i, n)
    ensures k < n
    ensures i >= 0 ==> k == i
    ensures i < 0 ==> k == n + i
  {
    if i < 0 then n + i else i
  }

  /** `passable[int(x)][int(y)]` does not raise. */
  predicate InIndexRange(a: Area, loc: Vec) {
    PyIndexable(TruncTile(loc.x), |a.passable|)
    && PyIndexable(TruncTile(loc.y), GridHeight(a.passable))
  }

  /** `is_passable`: truncate both coordinates toward zero and look the tile
      up, x first. There is no bounds check, so a negative tile index reads
      from the far edge of the map, as Python's indexing does; an index past
      the end raises, which `InIndexRange` excludes. */
  function IsPassable(a: Area, loc: Vec): (r: bool)
    requires Valid(a) && InIndexRange(a, loc)
    ensures 0 <= loc.x && 0 <= loc.y ==> r == a.passable[loc.x / 10][loc.y / 10]
    ensures loc.x <= -Tenths && 0 <= loc.y ==>
      r == a.passable[|a.passable| + TruncTile(loc.x)][loc.y / 10]
    ensures 0 <= loc.x && loc.y <= -Tenths ==>
      r == a.passable[loc.x / 10][GridHeight(a.passable) + TruncTile(loc.y)]
    ensures loc.x <= -Tenths && loc.y <= -Tenths ==>
      r == a.passable[|a.passable| + TruncTile(loc.x)][GridHeight(a.passable) + TruncTile(loc.y)]
  {
    var col := a.passable[PyIndex(TruncTile(loc.x), |a.passable|)];
    col[PyIndex(TruncTile(loc.y), GridHeight(a.passable))]
  }

  /** Every position inside one tile gives that tile's answer. */
  lemma PassableWholeTile(a: Area, tx: nat, ty: nat, loc: Vec)
    requires Valid(a) && tx < |a.passable| && ty < GridHeight(a.passable)
    requires 10 * tx <= loc.x < 10 * tx + Tenths
    requires 10 * ty <= loc.y < 10 * ty + Tenths
    ensures InIndexRange(a, loc)
    ensures IsPassable(a, loc) == a.passable[tx][ty]
  {
    assert TruncTile(loc.x) == tx;
    assert TruncTile(loc.y) == ty;
  }

  /** A step off the left edge is not refused: tile -1 is read from the last
      column. */
  lemma LeftOfMapWraps(a: Area, y: nat)
    requires Valid(a) && 0 < |a.passable| && y < GridHeight(a.passable)
    ensures InIndexRange(a, Vec(-Tenths, 10 * y))
    ensures IsPassable(a, Vec(-Tenths, 10 * y)) == a.passable[|a.passable| - 1][y]
  {
    assert TruncTile(-Tenths) == -1;
    assert TruncTile(10 * y) == y;
  }

  /** For an area loaded from a passability image: a whole tile is passable
      exactly when its pixel is not black. */
  lemma PassableIffNotBlack(pixels: seq<seq<int>>, a: Area, x: nat, y: nat)
    requires Rectangular(pixels) && a.passable == PassableGrid(pixels)
    requires x < |pixels| && y < |pixels[x]|
    ensures InIndexRange(a, Vec(10 * x, 10 * y))
    ensures IsPassable(a, Vec(10 * x, 10 * y)) <==> pixels[x][y] != 0
  {
    PassableWholeTile(a, x, y, Vec(10 * x, 10 * y));
  }

  // ----- doodads -----

  /** The doodads of one entry, one per location, in order. `imageSize` gives
      the size of each doodad type's image. */
  function Expand(e: DoodadEntry, imageSize: string -> (nat, nat)): (ds: seq<Doodad>)
    ensures |ds| == |e.locations|
    ensures forall j :: 0 <= j < |ds| ==>
      ds[j] == NewDoodad(e.kind, e.locations[j], e.showInFront, imageSize(e.kind).0, imageSize(e.kind).1)
  {
    seq(|e.locations|, j requires 0 <= j < |e.locations| =>
      NewDoodad(e.kind, e.locations[j], e.showInFront, imageSize(e.kind).0, imageSize(e.kind).1))
  }

  function TotalLocations(es: seq<DoodadEntry>): nat {
    if es == [] then 0 else TotalLocations(es[..|es| - 1]) + |es[|es| - 1].locations|
  }

  /** All entries' doodads in map-data order. */
  function Flatten(es: seq<DoodadEntry>, imageSize: string -> (nat, nat)): (ds: seq<Doodad>)
    ensures |ds| == TotalLocations(es)
    ensures forall d :: d in ds ==> !d.drawForeground
  {
    if es == [] then []
    else Flatten(es[..|es| - 1], imageSize) + Expand(es[|es| - 1], imageSize)
  }

  predicate SortedByY(ds: seq<Doodad>) {
    forall i, j :: 0 <= i < j < |ds| ==> ds[i].location.y <= ds[j].location.y
  }

  /** The doodads whose y is `y`, in their order. */
  function WithY(ds: seq<Doodad>, y: int): seq<Doodad> {
    if ds == [] then []
    else (if ds[0].location.y == y then [ds[0]] else []) + WithY(ds[1..], y)
  }

  /** `d` goes before the first element that is not above it. */
  function InsertByY(d: Doodad, ds: seq<Doodad>): seq<Doodad> {
    if ds == [] then [d]
    else if d.location.y <= ds[0].location.y then [d] + ds
    else [ds[0]] + InsertByY(d, ds[1..])
  }

  /** Python's `list.sort(key=y)`: ascending in y and stable. */
  function SortByY(ds: seq<Doodad>): seq<Doodad> {
    if ds == [] then [] else InsertByY(ds[0], SortByY(ds[1..]))
  }

  lemma {:induction false} WithYConcat(a: seq<Doodad>, b: seq<Doodad>, y: int)
    ensures WithY(a + b, y) == WithY(a, y) + WithY(b, y)
  {
    if a != [] {
      assert (a + b)[0] == a[0];
      assert (a + b)[1..] == a[1..] + b;
      WithYConcat(a[1..], b, y);
    } else {
      assert a + b == b;
    }
  }

  predicate AllAtLeast(ds: seq<Doodad>, lo: int) {
    forall i :: 0 <= i < |ds| ==> lo <= ds[i].location.y
  }

  lemma {:induction false} InsertKeepsBound(d: Doodad, ds: seq<Doodad>, lo: int)
    requires AllAtLeast(ds, lo) && lo <= d.location.y
    ensures AllAtLeast(InsertByY(d, ds), lo)
  {
    if ds != [] && d.location.y > ds[0].location.y {
      InsertKeepsBound(d, ds[1..], lo);
    }
  }

  lemma {:induction false} InsertSorted(d: Doodad, ds: seq<Doodad>)
    requires SortedByY(ds)
    ensures SortedByY(InsertByY(d, ds))
  {
    if ds != [] && d.location.y > ds[0].location.y {
      InsertSorted(d, ds[1..]);
      InsertKeepsBound(d, ds[1..], ds[0].location.y);
    }
  }

  lemma {:induction false} InsertPermutes(d: Doodad, ds: seq<Doodad>)
    ensures multiset(InsertByY(d, ds)) == multiset(ds) + multiset{d}
  {
    if ds == [] {
      assert InsertByY(d, ds) == [d];
    } else if d.location.y <= ds[0].location.y {
      assert InsertByY(d, ds) == [d] + ds;
    } else {
      var r := InsertByY(d, ds[1..]);
      assert InsertByY(d, ds) == [ds[0]] + r;
      InsertPermutes(d, ds[1..]);
      assert multiset([ds[0]] + r) == multiset{ds[0]} + multiset(r);
      assert ds == [ds[0]] + ds[1..];
      assert multiset(ds) == multiset{ds[0]} + multiset(ds[1..]);
    }
  }

  lemma WithYCons(x: Doodad, xs: seq<Doodad>, y: int)
    ensures WithY([x] + xs, y) == (if x.location.y == y then [x] else []) + WithY(xs, y)
  {
    assert ([x] + xs)[0] == x && ([x] + xs)[1..] == xs;
  }

  /** The doodads inserted past all have a smaller y, so `d` lands before
      every doodad that shares its y. */
  lemma {:induction false} InsertKeepsTies(d: Doodad, ds: seq<Doodad>, y: int)
    ensures WithY(InsertByY(d, ds), y) == (if d.location.y == y then [d] else []) + WithY(ds, y)
  {
    if ds == [] {
      WithYCons(d, [], y);
      assert [d] + [] == [d];
    } else if d.location.y <= ds[0].location.y {
      WithYCons(d, ds, y);
    } else {
      var r := InsertByY(d, ds[1..]);
      assert InsertByY(d, ds) == [ds[0]] + r;
      InsertKeepsTies(d, ds[1..], y);
      WithYCons(ds[0], r, y);
      WithYCons(ds[0], ds[1..], y);
      assert [ds[0]] + ds[1..] == ds;
      var hd := if ds[0].location.y == y then [ds[0]] else [];
      var dd := if d.location.y == y then [d] else [];
      assert hd == [] || dd == [];
      assert WithY(InsertByY(d, ds), y) == hd + (dd + WithY(ds[1..], y));
      assert WithY(ds, y) == hd + WithY(ds[1..], y);
    }
  }

  /** The sort is ascending, is a permutation, and keeps the relative order
      of doodads that share a y value. */
  lemma {:induction false} SortByYCorrect(ds: seq<Doodad>, y: int)
    ensures SortedByY(SortByY(ds))
    ensures multiset(SortByY(ds)) == multiset(ds)
    ensures WithY(SortByY(ds), y) == WithY(ds, y)
  {
    if ds != [] {
      SortByYCorrect(ds[1..], y);
      InsertSorted(ds[0], SortByY(ds[1..]));
      InsertPermutes(ds[0], SortByY(ds[1..]));
      InsertKeepsTies(ds[0], SortByY(ds[1..]), y);
      assert ds == [ds[0]] + ds[1..];
    }
  }

  /** `load_doodads`: one doodad per (entry, location) pair, appended in
      map-data order, then sorted by y. */
  method LoadDoodads(es: seq<DoodadEntry>, imageSize: string -> (nat, nat)) returns (ds: seq<Doodad>)
    ensures ds == SortByY(Flatten(es, imageSize))
    ensures |ds| == TotalLocations(es) && SortedByY(ds)
  {
    ds := [];
    var i := 0;
    while i < |es|
      invariant 0 <= i <= |es|
      invariant ds == Flatten(es[..i], imageSize)
    {
      var e := es[i];
      var j := 0;
      while j < |e.locations|
        invariant 0 <= j <= |e.locations|
        invariant ds == Flatten(es[..i], imageSize) + Expand(e, imageSize)[..j]
      {
        ds := ds + [NewDoodad(e.kind, e.locations[j], e.showInFront, imageSize(e.kind).0, imageSize(e.kind).1)];
        assert Expand(e, imageSize)[..j + 1] == Expand(e, imageSize)[..j] + [Expand(e, imageSize)[j]];
        j := j + 1;
      }
      assert es[..i + 1][..i] == es[..i];
      assert Expand(e, imageSize)[..j] == Expand(e, imageSize);
      i := i + 1;
    }
    assert es[..i] == es;
    var flat := ds;
    ds := SortByY(flat);
    SortByYCorrect(flat, 0);
    assert |ds| == |flat| by {
      assert |multiset(ds)| == |multiset(flat)|;
    }
  }

  /** `load_resources` after the files are read: the doodads, the start
      location and the passability grid. */
  method LoadResources(data: MapData, baseSize: (int, int), pixels: seq<seq<int>>,
                       imageSize: string -> (nat, nat)) returns (a: Area)
    requires Rectangular(pixels)
    ensures Valid(a)
    ensures a.baseSize == baseSize && Dimensions(a) == baseSize && a.startLocation == data.startLocation
    ensures a.doodads == SortByY(Flatten(data.doodads, imageSize))
    ensures a.passable == PassableGrid(pixels)
  {
    var ds := LoadDoodads(data.doodads, imageSize);
    a := Area(baseSize, PassableGrid(pixels), ds, data.startLocation);
  }
}
