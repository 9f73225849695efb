/** The overlay endpoint (`osmaps`): parse the BBOX argument, reject or
    short-circuit requests outside Great Britain, pick a layer, snap the origin
    to its grid and emit one `GroundOverlay` per cell of the 11 x 11 block. */
module Overlay {
  import opened Wrappers
  import opened Text
  import opened Layers
  import opened Grid
  import opened TileUrl
  import opened Kml

  /** What the service takes from elsewhere: the projection between WGS84
      latitude/longitude and British National Grid (both directions, as
      `lat_lon_to_north_east` and `north_east_to_lat_lon` return them), and the
      sine function and the constant pi for `convergence`. */
  datatype Geodesy = Geodesy(
    toGrid: (real, real) -> (real, real),
    toLatLon: (real, real) -> (real, real),
    sin: real -> real,
    pi: real)

  /** `convergence(lat, long)`: the angle between grid north and true north, in
      degrees. It vanishes on the grid's central meridian, 2 degrees west. */
  function Convergence(g: Geodesy, lat: real, lon: real): (d: real)
    ensures lon == -2.0 ==> d == 0.0
    ensures g.sin(lat * g.pi / 180.0) == 0.0 ==> d == 0.0
  {
    (lon + 2.0) * g.sin(lat * g.pi / 180.0)
  }

  /** Why a request is answered with 400 Bad Request. */
  datatype BadBbox = MissingBbox | NotThreeFloats | NoOrigin

  /** A parsed BBOX argument: centre latitude and longitude, and range in metres. */
  datatype Bbox = Bbox(lat: real, lon: real, range: real)

  /** The BBOX argument, split at commas; each field stripped and given to
      `float()` (here `parseFloat`). A missing or empty argument, a field that
      does not parse, or a count other than three is an error. */
  function ParseBbox(arg: Option<string>, parseFloat: string -> Option<real>): (r: Result<Bbox, BadBbox>)
    ensures (arg.None? || arg.value == "") <==> r == Failure(MissingBbox)
    ensures r.Failure? && r.error != MissingBbox ==> r.error == NotThreeFloats
    ensures r.Success? <==>
      arg.Some? && arg.value != "" && |Split(arg.value, ',')| == 3 &&
      AllParse(Split(arg.value, ','), parseFloat)
    ensures r.Success? ==>
      var fields := Split(arg.value, ',');
      r.value == Bbox(parseFloat(Strip(fields[0])).value,
                      parseFloat(Strip(fields[1])).value,
                      parseFloat(Strip(fields[2])).value)
  {
    if arg.None? || arg.value == "" then Failure(MissingBbox)
    else
      var fields := Split(arg.value, ',');
      if !AllParse(fields, parseFloat) then Failure(NotThreeFloats)
      else if |fields| != 3 then Failure(NotThreeFloats)
      else
        Success(Bbox(parseFloat(Strip(fields[0])).value,
                     parseFloat(Strip(fields[1])).value,
                     parseFloat(Strip(fields[2])).value))
  }

  /** Whether `float()` accepts every field once it is stripped. */
  predicate AllParse(fields: seq<string>, parseFloat: string -> Option<real>)
  {
    forall f :: f in fields ==> parseFloat(Strip(f)).Some?
  }

  /** The "way off" test: a centre west of 9W or east of 3E, south of 49N or
      north of 62N, or a range over 1000 km. */
  predicate OutOfRegion(b: Bbox)
  {
    b.lon < -9.0 || b.lat < 49.0 || b.lon > 3.0 || b.lat > 62.0 || b.range > 1000000.0
  }

  /** The region test passes exactly when the centre lies in the closed box
      49N to 62N, 9W to 3E, and its range is at most 1000 km; the sample
      request `54.39842700542721,-2.036022996438413,5744.95` is one. */
  lemma InRegionIsBox(b: Bbox)
    ensures !OutOfRegion(b) <==>
      49.0 <= b.lat <= 62.0 && -9.0 <= b.lon <= 3.0 && b.range <= 1000000.0
    ensures !OutOfRegion(Bbox(54.39842700542721, -2.036022996438413, 5744.95))
  {
  }

  /** The overlay for one cell of the block: its URL (BBOX in w,s,e,n order), the
      latitudes of the midpoints of its south and north edges, the longitudes
      of the midpoints of its east and west edges, and the rotation at its
      centre. */
  function TileFor(g: Geodesy, base: string, layer: nat, c: Cell): (o: GroundOverlay)
    requires layer < |LayerParams|
    ensures o.cell == c
    ensures '&' !in base ==> QuerySegments(o.url) == UrlSegments(base, c.w, c.s, c.e, c.n, layer)
    ensures var half := 0.5 * LayerParams[layer].scale as real;
      g.toLatLon(c.s as real + half, c.w as real + half).1 == -2.0 ==> o.rotation == 0.0
  {
    var half := 0.5 * LayerParams[layer].scale as real;
    var bottom := g.toLatLon(c.s as real, c.w as real + half).0;
    var top := g.toLatLon(c.n as real, c.w as real + half).0;
    var right := g.toLatLon(c.s as real + half, c.e as real).1;
    var left := g.toLatLon(c.s as real + half, c.w as real).1;
    var centre := g.toLatLon(c.s as real + half, c.w as real + half);
    GroundOverlay(MakeUrl(base, c.w, c.s, c.e, c.n, layer), c,
                  top, bottom, right, left, -1.0 * Convergence(g, centre.0, centre.1))
  }

  /** The 121 overlays of the block around the origin, in the block's order. */
  function Tiles(g: Geodesy, base: string, layer: nat, origS: int, origW: int): (r: seq<Part>)
    requires layer < |LayerParams|
    ensures |r| == Side * Side
    ensures forall k :: 0 <= k < |r| ==> r[k].Tile?
  {
    var cells := Block(origS, origW, LayerParams[layer].scale);
    seq(Side * Side, k requires 0 <= k < Side * Side => Tile(TileFor(g, base, layer, cells[k])))
  }

  /** The cell of the selected layer's grid that holds the centre: `osmaps()`
      snaps the centre's northing and easting down to multiples of the layer's
      scale. */
  function Origin(g: Geodesy, b: Bbox): (c: Cell)
    ensures var unit := LayerParams[SelectLayer(b.range)].scale;
      c.n - c.s == unit && c.e - c.w == unit
  {
    var (north, east) := g.toGrid(b.lat, b.lon);
    var unit := LayerParams[SelectLayer(b.range)].scale;
    var s, w := SnapDown(north, unit), SnapDown(east, unit);
    Cell(s, w, s + unit, w + unit)
  }

  /** The origin cell is on the grid of the selected layer and holds the
      projected centre. */
  lemma OriginHoldsCentre(g: Geodesy, b: Bbox)
    ensures var (north, east) := g.toGrid(b.lat, b.lon);
      var unit := LayerParams[SelectLayer(b.range)].scale;
      var c := Origin(g, b);
      Holds(c, north, east) && c.s % unit == 0 && c.w % unit == 0
  {
  }

  /** The body `osmaps()` builds for an in-region request whose origin is
      non-zero: the header, the tiles of the selected layer around the origin
      cell, the footer. */
  function TiledBody(g: Geodesy, base: string, b: Bbox): (body: seq<Part>)
    ensures |body| == Side * Side + 2 && body[0] == Header && body[|body| - 1] == Footer
    ensures forall k :: 1 <= k <= Side * Side ==> body[k].Tile?
  {
    var o := Origin(g, b);
    [Header] + Tiles(g, base, SelectLayer(b.range), o.s, o.w) + [Footer]
  }

  /** `osmaps()`: the response body for a BBOX argument, or why it is a bad request. */
  method OsMaps(arg: Option<string>, parseFloat: string -> Option<real>, g: Geodesy, base: string)
    returns (resp: Result<seq<Part>, BadBbox>)
    ensures var p := ParseBbox(arg, parseFloat);
      p.Failure? ==> resp == Failure(p.error)
    ensures var p := ParseBbox(arg, parseFloat);
      p.Success? && OutOfRegion(p.value) ==> resp == Success([Header, Footer])
    ensures var p := ParseBbox(arg, parseFloat);
      p.Success? && !OutOfRegion(p.value) ==>
      var (north, east) := g.toGrid(p.value.lat, p.value.lon);
      resp == if north == 0.0 || east == 0.0 then Failure(NoOrigin) else Success(TiledBody(g, base, p.value))
  {
    var body := [Header];
    var parsed := ParseBbox(arg, parseFloat);
    if parsed.Failure? {
      return Failure(parsed.error);
    }
    var b := parsed.value;
    if !OutOfRegion(b) {
      var (north, east) := g.toGrid(b.lat, b.lon);
      if north == 0.0 || east == 0.0 {
        return Failure(NoOrigin);
      }
      var layer := SelectLayer(b.range);
      var origin := Origin(g, b);
      body := AppendTiles(body, g, base, layer, origin.s, origin.w);
      assert body + [Footer] == TiledBody(g, base, b);
    } else {
      HeaderThenFooter();
    }
    body := body + [Footer];
    return Success(body);
  }

  /** Appending the footer to the header alone gives the two-part document. */
  lemma HeaderThenFooter()
    ensures [Header] + [Footer] == [Header, Footer]
  {
  }

  /** The nested loop of `osmaps()` over `MINUS_5_TO_PLUS_5`: one overlay per
      cell, rows from south to north and, within a row, cells from west to east,
      appended to the document built so far. */
  method AppendTiles(body: seq<Part>, g: Geodesy, base: string, layer: nat, origS: int, origW: int)
    returns (out: seq<Part>)
    requires layer < |LayerParams|
    ensures out == body + Tiles(g, base, layer, origS, origW)
  {
    var unit := LayerParams[layer].scale;
    ghost var tiles := Tiles(g, base, layer, origS, origW);
    ghost var k := 0;
    out := body;
    for i := -Reach to Reach + 1
      invariant k == Side * (i + Reach)
      invariant out == body + tiles[..k]
    {
      var s := origS + unit * i;
      ghost var rowStart := k;
      for j := -Reach to Reach + 1
        invariant k == rowStart + (j + Reach)
        invariant out == body + tiles[..k]
      {
        var w := origW + unit * j;
        var overlay := TileFor(g, base, layer, Cell(s, w, s + unit, w + unit));
        TileAt(g, base, layer, unit, origS, origW, i, j, k, s, w);
        ExtendPrefix(body, tiles, k);
        out := out + [Tile(overlay)];
        k := k + 1;
      }
    }
    assert tiles[..Side * Side] == tiles;
  }

  /** The tile at offsets `(i, j)` sits at position `k = Side * (i + Reach) + (j + Reach)`
      and is the overlay of the cell whose south-west corner `(s, w)` lies `i`
      rows north and `j` columns east of the origin. */
  lemma TileAt(g: Geodesy, base: string, layer: nat, unit: nat, origS: int, origW: int,
               i: int, j: int, k: int, s: int, w: int)
    requires layer < |LayerParams| && unit == LayerParams[layer].scale
    requires -Reach <= i <= Reach && -Reach <= j <= Reach
    requires k == Side * (i + Reach) + (j + Reach)
    requires s == origS + unit * i && w == origW + unit * j
    ensures 0 <= k < Side * Side
    ensures Tiles(g, base, layer, origS, origW)[k] == Tile(TileFor(g, base, layer, Cell(s, w, s + unit, w + unit)))
  {
    BlockAt(origS, origW, unit, i, j, k, s, w);
  }

  /** Extending a prefix of `s` by its next element. */
  lemma ExtendPrefix<T>(init: seq<T>, s: seq<T>, k: nat)
    requires k < |s|
    ensures init + s[..k] + [s[k]] == init + s[..k + 1]
  {
    assert s[..k + 1] == s[..k] + [s[k]];
  }

  /** Three comma-free fields joined with commas parse back to their values. */
  lemma ParseBboxRoundTrip(f0: string, f1: string, f2: string, parseFloat: string -> Option<real>,
                           lat: real, lon: real, range: real)
    requires ',' !in f0 && ',' !in f1 && ',' !in f2
    requires parseFloat(Strip(f0)) == Some(lat) && parseFloat(Strip(f1)) == Some(lon)
    requires parseFloat(Strip(f2)) == Some(range)
    ensures ParseBbox(Some(f0 + "," + f1 + "," + f2), parseFloat) == Success(Bbox(lat, lon, range))
  {
    var s := f0 + "," + f1 + "," + f2;
    SplitThree(f0, f1, f2);
    assert |s| > 0;
    ThreeParse(f0, f1, f2, parseFloat);
    ThreeFieldsParsed(s, parseFloat);
  }

  /** A BBOX of three fields that all parse gives the box of their values. */
  lemma ThreeFieldsParsed(s: string, parseFloat: string -> Option<real>)
    requires s != "" && |Split(s, ',')| == 3 && AllParse(Split(s, ','), parseFloat)
    ensures var fields := Split(s, ',');
      ParseBbox(Some(s), parseFloat) == Success(Bbox(parseFloat(Strip(fields[0])).value,
        parseFloat(Strip(fields[1])).value, parseFloat(Strip(fields[2])).value))
  {
  }

  lemma ThreeParse(f0: string, f1: string, f2: string, parseFloat: string -> Option<real>)
    requires parseFloat(Strip(f0)).Some? && parseFloat(Strip(f1)).Some? && parseFloat(Strip(f2)).Some?
    ensures AllParse([f0, f1, f2], parseFloat)
  {
    forall f | f in [f0, f1, f2] ensures parseFloat(Strip(f)).Some? {
      assert f == f0 || f == f1 || f == f2;
    }
  }

  lemma SplitThree(f0: string, f1: string, f2: string)
    requires ',' !in f0 && ',' !in f1 && ',' !in f2
    ensures Split(f0 + "," + f1 + "," + f2, ',') == [f0, f1, f2]
  {
    var fields := [f0, f1, f2];
    SplitJoin(fields, ',');
    assert Join(fields[2..], ",") == f2;
    assert Join(fields[1..], ",") == f1 + "," + f2;
    assert Join(fields, ",") == f0 + "," + f1 + "," + f2;
  }

  /** A BBOX with other than three fields is rejected as such, whatever the fields hold. */
  lemma WrongFieldCount(s: string, parseFloat: string -> Option<real>)
    requires s != "" && |Split(s, ',')| != 3
    ensures ParseBbox(Some(s), parseFloat) == Failure(NotThreeFloats)
  {
    var r := ParseBbox(Some(s), parseFloat);
    assert r.Failure?;
    assert r.error != MissingBbox;
  }

  /** Position `k` of an in-region reply is the overlay of cell `k - 1` of the
      block around the origin cell. */
  lemma TileOfBody(g: Geodesy, base: string, b: Bbox, k: int)
    requires 1 <= k <= Side * Side
    ensures var body := TiledBody(g, base, b);
      var o := Origin(g, b);
      var layer := SelectLayer(b.range);
      var c := Block(o.s, o.w, LayerParams[layer].scale)[k - 1];
      |body| == Side * Side + 2 && body[k] == Tile(TileFor(g, base, layer, c)) && body[k].overlay.cell == c
  {
    var o := Origin(g, b);
    var layer := SelectLayer(b.range);
    TileOfTiles(g, base, layer, o.s, o.w, k - 1);
    Framed(Tiles(g, base, layer, o.s, o.w), k);
  }

  /** The cell of body position `k`, without the rest of its overlay. */
  lemma CellOfBody(g: Geodesy, base: string, b: Bbox, k: int)
    requires 1 <= k <= Side * Side
    ensures var body := TiledBody(g, base, b);
      var o := Origin(g, b);
      |body| == Side * Side + 2 && body[k].Tile? &&
      body[k].overlay.cell == Block(o.s, o.w, LayerParams[SelectLayer(b.range)].scale)[k - 1]
  {
    TileOfBody(g, base, b, k);
  }

  lemma TileOfTiles(g: Geodesy, base: string, layer: nat, origS: int, origW: int, k: int)
    requires layer < |LayerParams| && 0 <= k < Side * Side
    ensures Tiles(g, base, layer, origS, origW)[k] ==
      Tile(TileFor(g, base, layer, Block(origS, origW, LayerParams[layer].scale)[k]))
  {
  }

  lemma Framed(tiles: seq<Part>, k: int)
    requires 1 <= k <= |tiles|
    ensures ([Header] + tiles + [Footer])[k] == tiles[k - 1]
  {
  }

  /** Every tile of an in-region reply covers one square of the selected
      layer's grid. */
  lemma TileIsGridSquare(g: Geodesy, base: string, b: Bbox, k: int)
    requires 1 <= k <= Side * Side
    ensures var unit := LayerParams[SelectLayer(b.range)].scale;
      var c := TiledBody(g, base, b)[k].overlay.cell;
      c.n - c.s == unit && c.e - c.w == unit && c.s % unit == 0 && c.w % unit == 0
  {
    var o := Origin(g, b);
    OriginHoldsCentre(g, b);
    CellOfBody(g, base, b, k);
    BlockCellsAreGridSquares(o.s, o.w, LayerParams[SelectLayer(b.range)].scale, k - 1);
  }

  /** The body position of the tile in row `a` and column `c` of the block;
      its neighbours to the east and to the north are tiles too. */
  function BodyPosition(a: nat, c: nat): (k: nat)
    requires a < Side && c < Side
    ensures k == Side * a + c + 1 && 1 <= k <= Side * Side
    ensures c < Side - 1 ==> k + 1 <= Side * Side
    ensures a < Side - 1 ==> k + Side <= Side * Side
  {
    Side * a + c + 1
  }

  /** The tile in row `a` and column `c` of the reply (body position
      `Side * a + c + 1`) shares its east edge with the next tile of its row,
      and its north edge with the tile in the same column of the next row. */
  lemma TilesShareEdges(g: Geodesy, base: string, b: Bbox, a: nat, c: nat)
    requires a < Side && c < Side
    ensures var body := TiledBody(g, base, b);
      var k := BodyPosition(a, c);
      var cell := body[k].overlay.cell;
      (c < Side - 1 ==> body[k + 1].overlay.cell.w == cell.e && body[k + 1].overlay.cell.s == cell.s) &&
      (a < Side - 1 ==> body[k + Side].overlay.cell.s == cell.n && body[k + Side].overlay.cell.w == cell.w)
  {
    var o := Origin(g, b);
    var k := BodyPosition(a, c);
    CellOfBody(g, base, b, k);
    NeighboursAt(o.s, o.w, LayerParams[SelectLayer(b.range)].scale, a, c);
    if c < Side - 1 {
      CellOfBody(g, base, b, k + 1);
    }
    if a < Side - 1 {
      CellOfBody(g, base, b, k + Side);
    }
  }

  /** The middle tile of an in-region reply is the origin cell, the one holding
      the requested centre. */
  lemma CentreTileIsOrigin(g: Geodesy, base: string, b: Bbox)
    ensures var body := TiledBody(g, base, b);
      var (north, east) := g.toGrid(b.lat, b.lon);
      body[Side * Side / 2 + 1].overlay.cell == Origin(g, b) &&
      Holds(body[Side * Side / 2 + 1].overlay.cell, north, east)
  {
    var o := Origin(g, b);
    var unit := LayerParams[SelectLayer(b.range)].scale;
    OriginHoldsCentre(g, b);
    CellOfBody(g, base, b, Side * Side / 2 + 1);
    CentreOfBlock(o.s, o.w, unit);
  }

  lemma CentreOfBlock(origS: int, origW: int, unit: nat)
    ensures Block(origS, origW, unit)[Side * Side / 2] == Cell(origS, origW, origS + unit, origW + unit)
  {
    BlockAt(origS, origW, unit, 0, 0, Side * Side / 2, origS, origW);
  }

  /** Read back, the URL of every tile names the selected layer, its tile size
      and the tile's own box, west, south, east, north. */
  lemma TileUrlNamesCell(g: Geodesy, base: string, b: Bbox, k: int)
    requires 1 <= k <= Side * Side && '&' !in base
    ensures var body := TiledBody(g, base, b);
      var p := LayerParams[SelectLayer(b.range)];
      var c := body[k].overlay.cell;
      var q := QuerySegments(body[k].overlay.url);
      |q| == 11 && q[0] == base + ProxyPath + Format &&
      IntParam(q[6], "LAYERS=", p.layers) && BboxParam(q[8], [c.w, c.s, c.e, c.n]) &&
      IntParam(q[9], "WIDTH=", p.w) && IntParam(q[10], "HEIGHT=", p.h)
  {
    var layer := SelectLayer(b.range);
    TileOfBody(g, base, b, k);
    var c := TiledBody(g, base, b)[k].overlay.cell;
    MakeUrlParameters(base, c.w, c.s, c.e, c.n, layer);
  }

  /** The KML text of every tile is escaped as XML text must be, given a base
      URL without `&` and number renderings without `&`. */
  lemma TileTextEscaped(g: Geodesy, base: string, b: Bbox, k: int, fmt: real -> string)
    requires 1 <= k <= Side * Side && '&' !in base
    requires forall x :: '&' !in fmt(x)
    ensures AmpersandsEscaped(PartText(TiledBody(g, base, b)[k], fmt))
  {
    TileOfBody(g, base, b, k);
    OverlayTextEscaped(TiledBody(g, base, b)[k].overlay, fmt);
  }
}
