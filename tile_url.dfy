/** `make_url`: the image URL of one grid cell, pointing at this service's own
    proxy endpoint and escaped for use inside KML (XML) text. */
module TileUrl {
  import opened Text
  import opened Layers

  const ProxyPath: string := "/osproxy"

  /** The query separator, already XML-escaped. */
  const Separator: string := "&amp;"

  /** The eleven `KEY=VALUE` pieces of the URL, before joining. The bounding box
      corners are integral floats, rendered as Python renders them. */
  function UrlSegments(base: string, eFrom: int, nFrom: int, eTo: int, nTo: int, layer: nat): (r: seq<string>)
    requires layer < |LayerParams|
    ensures |r| == 11
    ensures forall s :: s in r[1..] ==> '&' !in s
    ensures '&' !in base ==> '&' !in r[0]
  {
    var p := LayerParams[layer];
    FixedPiecesAvoidAmpersand();
    var layers, bbox := "LAYERS=" + IntText(p.layers), "BBOX=" + BboxText(eFrom, nFrom, eTo, nTo);
    var width, height := "WIDTH=" + IntText(p.w), "HEIGHT=" + IntText(p.h);
    assert '&' !in layers && '&' !in bbox && '&' !in width && '&' !in height;
    var tail := [layers, Srs, bbox, width, height];
    assert forall s :: s in tail ==> '&' !in s;
    var rest := FixedPieces + tail;
    assert forall s :: s in rest ==> '&' !in s;
    [base + ProxyPath + Format] + rest
  }

  // The fixed pieces of the query, in order.
  const Format: string := "?FORMAT=image%2Fpng"
  const Service: string := "SERVICE=WMS"
  const Version: string := "VERSION=1.1.1"
  const Request: string := "REQUEST=GetMap"
  const Styles: string := "STYLES=raster"
  const Exceptions: string := "EXCEPTIONS=application%2Fvnd.ogc.se_inimage"
  const Srs: string := "SRS=EPSG%3A27700"

  /** The five constant pieces between the path and LAYERS. */
  const FixedPieces: seq<string> := [Service, Version, Request, Styles, Exceptions]

  /** None of the fixed pieces of the URL holds an ampersand. */
  lemma FixedPiecesAvoidAmpersand()
    ensures '&' !in ProxyPath + Format
    ensures '&' !in Service && '&' !in Version && '&' !in Request && '&' !in Styles
    ensures '&' !in Exceptions && '&' !in Srs
    ensures '&' !in "LAYERS=" && '&' !in "BBOX=" && '&' !in "WIDTH=" && '&' !in "HEIGHT="
    ensures forall s :: s in FixedPieces ==> '&' !in s
  {
    HeadPiecesAvoidAmpersand();
    LiteralAvoidsAmpersand(Styles);
    LiteralAvoidsAmpersand(Exceptions);
    LiteralAvoidsAmpersand(Srs);
    LiteralAvoidsAmpersand("LAYERS=");
    LiteralAvoidsAmpersand("BBOX=");
    LiteralAvoidsAmpersand("WIDTH=");
    LiteralAvoidsAmpersand("HEIGHT=");
  }

  lemma HeadPiecesAvoidAmpersand()
    ensures '&' !in ProxyPath + Format
    ensures '&' !in Service && '&' !in Version && '&' !in Request
  {
    LiteralAvoidsAmpersand(ProxyPath + Format);
    LiteralAvoidsAmpersand(Service);
    LiteralAvoidsAmpersand(Version);
    LiteralAvoidsAmpersand(Request);
  }

  /** The value of the BBOX parameter: four comma-separated coordinates. */
  function BboxText(eFrom: int, nFrom: int, eTo: int, nTo: int): (r: string)
    ensures '&' !in r
    ensures BboxValues(r) == [eFrom, nFrom, eTo, nTo]
  {
    CoordinatesReadBack([eFrom, nFrom, eTo, nTo]);
    Join(FloatTexts([eFrom, nFrom, eTo, nTo]), ",")
  }

  /** Each coordinate rendered as `str()` renders an integral float. */
  function FloatTexts(values: seq<int>): (texts: seq<string>)
    ensures |texts| == |values|
    ensures forall k :: 0 <= k < |values| ==> texts[k] == IntegralFloatText(values[k])
  {
    seq(|values|, k requires 0 <= k < |values| => IntegralFloatText(values[k]))
  }

  /** Any non-empty list of coordinates, rendered and joined by commas, holds
      no `&` and reads back as the list. */
  lemma CoordinatesReadBack(values: seq<int>)
    requires |values| >= 1
    ensures '&' !in Join(FloatTexts(values), ",")
    ensures BboxValues(Join(FloatTexts(values), ",")) == values
  {
    var texts := FloatTexts(values);
    var r := Join(texts, ",");
    JoinAvoids(texts, ",", '&');
    SplitJoin(texts, ',');
    assert Split(r, ',') == texts;
    forall k | 0 <= k < |values| ensures BboxValues(r)[k] == values[k] {
      var t := texts[k];
      assert t[..|t| - 2] == IntText(values[k]);
    }
  }

  /** Reads a BBOX value back: split at commas, drop each ".0", read the integer. */
  function BboxValues(v: string): seq<int>
  {
    var pieces := Split(v, ',');
    seq(|pieces|, k requires 0 <= k < |pieces| =>
      if |pieces[k]| >= 2 then IntValue(pieces[k][..|pieces[k]| - 2]) else 0)
  }

  /** `make_url(e_from, n_from, e_to, n_to, layer_index)`. */
  function MakeUrl(base: string, eFrom: int, nFrom: int, eTo: int, nTo: int, layer: nat): (url: string)
    requires layer < |LayerParams|
    ensures '&' !in base ==> AmpersandsEscaped(url)
    ensures '&' !in base ==> QuerySegments(url) == UrlSegments(base, eFrom, nFrom, eTo, nTo, layer)
  {
    var segs := UrlSegments(base, eFrom, nFrom, eTo, nTo, layer);
    var url := Join(segs, Separator);
    if '&' in base then url
    else
      assert forall k :: 0 <= k < |segs| ==> '&' !in segs[k] by {
        forall k | 0 <= k < |segs| ensures '&' !in segs[k] {
          if k > 0 { assert segs[k] in segs[1..]; }
        }
      }
      JoinEscaped(segs);
      DecodeJoined(segs);
      url
  }

  /** Reads a URL built by `MakeUrl` back into its pieces: split at `&`, and
      strip the `amp;` that follows every separator. */
  function QuerySegments(url: string): (r: seq<string>)
  {
    Unescape(Split(url, '&'))
  }

  function Unescape(pieces: seq<string>): (r: seq<string>)
    requires |pieces| >= 1
    ensures |r| == |pieces|
  {
    [pieces[0]] + seq(|pieces| - 1, k requires 0 <= k < |pieces| - 1 => DropAmp(pieces[k + 1]))
  }

  function DropAmp(p: string): string
  {
    if |p| >= 4 && p[..4] == "amp;" then p[4..] else p
  }

  /** The pieces after the first, each prefixed with the rest of the separator. */
  function Prefixed(parts: seq<string>): (r: seq<string>)
    ensures |r| == |parts|
  {
    seq(|parts|, k requires 0 <= k < |parts| => "amp;" + parts[k])
  }

  lemma JoinWithEntity(parts: seq<string>)
    requires |parts| >= 1
    ensures Join(parts, Separator) == Join([parts[0]] + Prefixed(parts[1..]), "&")
  {
    if |parts| > 1 {
      var pr := Prefixed(parts[1..]);
      JoinPrefixed(parts[1..]);
      assert ([parts[0]] + pr)[1..] == pr;
      assert Join([parts[0]] + pr, "&") == parts[0] + "&" + Join(pr, "&");
      assert Join(parts, Separator) == parts[0] + Separator + Join(parts[1..], Separator);
      EntitySplit(parts[0], Join(parts[1..], Separator));
    } else {
      assert Prefixed(parts[1..]) == [];
      assert [parts[0]] + Prefixed(parts[1..]) == [parts[0]];
    }
  }

  lemma EntitySplit(a: string, b: string)
    ensures a + Separator + b == a + "&" + ("amp;" + b)
  {
    assert Separator == "&" + "amp;";
  }

  /** Joining the prefixed pieces with a bare `&` rebuilds the entity separators. */
  lemma {:induction false} JoinPrefixed(rest: seq<string>)
    requires |rest| >= 1
    ensures Join(Prefixed(rest), "&") == "amp;" + Join(rest, Separator)
    decreases |rest|
  {
    var pr := Prefixed(rest);
    if |rest| > 1 {
      JoinPrefixed(rest[1..]);
      assert pr[1..] == Prefixed(rest[1..]);
      calc {
        Join(pr, "&");
        pr[0] + "&" + Join(pr[1..], "&");
        ("amp;" + rest[0]) + "&" + ("amp;" + Join(rest[1..], Separator));
        { assert "&" + "amp;" == Separator; }
        "amp;" + (rest[0] + Separator + Join(rest[1..], Separator));
      }
    }
  }

  /** Every `&` of the joined URL starts an `&amp;`. */
  lemma JoinEscaped(segs: seq<string>)
    requires |segs| >= 1
    requires forall k :: 0 <= k < |segs| ==> '&' !in segs[k]
    ensures AmpersandsEscaped(Join(segs, Separator))
    decreases |segs|
  {
    NoAmpersandEscaped(segs[0]);
    if |segs| > 1 {
      JoinEscaped(segs[1..]);
      NoAmpersandEscaped(Separator[1..]);
      assert AmpersandsEscaped(Separator) by {
        forall i | 0 <= i < |Separator| && Separator[i] == '&'
          ensures i + 5 <= |Separator| && Separator[i..i + 5] == "&amp;"
        {
          assert i == 0;
        }
      }
      EscapedConcat(segs[0], Separator);
      EscapedConcat(segs[0] + Separator, Join(segs[1..], Separator));
    }
  }

  /** `QuerySegments` recovers the pieces `MakeUrl` joined. */
  lemma DecodeJoined(segs: seq<string>)
    requires |segs| >= 1
    requires forall k :: 0 <= k < |segs| ==> '&' !in segs[k]
    ensures QuerySegments(Join(segs, Separator)) == segs
  {
    var escaped := [segs[0]] + Prefixed(segs[1..]);
    JoinWithEntity(segs);
    EscapedAvoidAmpersand(segs);
    SplitJoin(escaped, '&');
    UnescapePrefixed(segs);
  }

  lemma EscapedAvoidAmpersand(segs: seq<string>)
    requires |segs| >= 1
    requires forall k :: 0 <= k < |segs| ==> '&' !in segs[k]
    ensures var escaped := [segs[0]] + Prefixed(segs[1..]);
      forall k :: 0 <= k < |escaped| ==> '&' !in escaped[k]
  {
    var escaped := [segs[0]] + Prefixed(segs[1..]);
    forall k | 0 <= k < |escaped| ensures '&' !in escaped[k] {
      if k > 0 {
        assert escaped[k] == "amp;" + segs[k];
      }
    }
  }

  lemma UnescapePrefixed(segs: seq<string>)
    requires |segs| >= 1
    ensures Unescape([segs[0]] + Prefixed(segs[1..])) == segs
  {
    var escaped := [segs[0]] + Prefixed(segs[1..]);
    var q := Unescape(escaped);
    forall k | 0 <= k < |segs| ensures q[k] == segs[k] {
      if k > 0 {
        var p := "amp;" + segs[k];
        assert escaped[k] == p;
        assert p[..4] == "amp;" && p[4..] == segs[k];
      }
    }
  }

  /** A `KEY=VALUE` piece whose value reads back as the integer `v`. */
  predicate IntParam(seg: string, key: string, v: int)
  {
    |key| <= |seg| && seg[..|key|] == key && IntValue(seg[|key|..]) == v
  }

  /** A `BBOX=...` piece whose four coordinates read back as `corners`. */
  predicate BboxParam(seg: string, corners: seq<int>)
  {
    5 <= |seg| && seg[..5] == "BBOX=" && BboxValues(seg[5..]) == corners
  }

  /** Read back, the pieces name the proxy path and PNG format, the fixed WMS
      parameters, the layer's LAYERS, WIDTH and HEIGHT, the British National
      Grid SRS and the box corners in the order west, south, east, north as
      passed. */
  lemma UrlSegmentsMeaning(base: string, eFrom: int, nFrom: int, eTo: int, nTo: int, layer: nat)
    requires layer < |LayerParams|
    ensures var r := UrlSegments(base, eFrom, nFrom, eTo, nTo, layer);
      var p := LayerParams[layer];
      r[0] == base + ProxyPath + Format && r[1..6] == FixedPieces && r[7] == Srs &&
      IntParam(r[6], "LAYERS=", p.layers) && BboxParam(r[8], [eFrom, nFrom, eTo, nTo]) &&
      IntParam(r[9], "WIDTH=", p.w) && IntParam(r[10], "HEIGHT=", p.h)
  {
    var p := LayerParams[layer];
    SegmentsAt(base, eFrom, nFrom, eTo, nTo, layer);
    KeyedInt("LAYERS=", p.layers);
    KeyedInt("WIDTH=", p.w);
    KeyedInt("HEIGHT=", p.h);
    KeyedBbox(eFrom, nFrom, eTo, nTo);
  }

  /** Where each piece of the template sits in the segment list. */
  lemma SegmentsAt(base: string, eFrom: int, nFrom: int, eTo: int, nTo: int, layer: nat)
    requires layer < |LayerParams|
    ensures var r := UrlSegments(base, eFrom, nFrom, eTo, nTo, layer);
      var p := LayerParams[layer];
      r[0] == base + ProxyPath + Format && r[1..6] == FixedPieces && r[7] == Srs &&
      r[6] == "LAYERS=" + IntText(p.layers) && r[8] == "BBOX=" + BboxText(eFrom, nFrom, eTo, nTo) &&
      r[9] == "WIDTH=" + IntText(p.w) && r[10] == "HEIGHT=" + IntText(p.h)
  {
    FixedSegmentsAt(base, eFrom, nFrom, eTo, nTo, layer);
    ParamSegmentsAt(base, eFrom, nFrom, eTo, nTo, layer);
  }

  lemma FixedSegmentsAt(base: string, eFrom: int, nFrom: int, eTo: int, nTo: int, layer: nat)
    requires layer < |LayerParams|
    ensures var r := UrlSegments(base, eFrom, nFrom, eTo, nTo, layer);
      r[0] == base + ProxyPath + Format && r[1..6] == FixedPieces && r[7] == Srs
  {
    var p := LayerParams[layer];
    var layers, bbox := "LAYERS=" + IntText(p.layers), "BBOX=" + BboxText(eFrom, nFrom, eTo, nTo);
    var width, height := "WIDTH=" + IntText(p.w), "HEIGHT=" + IntText(p.h);
    Pieces(base + ProxyPath + Format, FixedPieces, [layers, Srs, bbox, width, height]);
  }

  /** The pieces of a list made of a head, a middle and a tail. */
  lemma Pieces<T>(head: T, middle: seq<T>, tail: seq<T>)
    ensures var r := [head] + (middle + tail);
      r[0] == head && r[1..|middle| + 1] == middle && r[|middle| + 1..] == tail
  {
    var r := [head] + (middle + tail);
    assert r[1..] == middle + tail;
  }

  lemma ParamSegmentsAt(base: string, eFrom: int, nFrom: int, eTo: int, nTo: int, layer: nat)
    requires layer < |LayerParams|
    ensures var r := UrlSegments(base, eFrom, nFrom, eTo, nTo, layer);
      var p := LayerParams[layer];
      r[6] == "LAYERS=" + IntText(p.layers) && r[8] == "BBOX=" + BboxText(eFrom, nFrom, eTo, nTo) &&
      r[9] == "WIDTH=" + IntText(p.w) && r[10] == "HEIGHT=" + IntText(p.h)
  {}

  lemma KeyedBbox(eFrom: int, nFrom: int, eTo: int, nTo: int)
    ensures BboxParam("BBOX=" + BboxText(eFrom, nFrom, eTo, nTo), [eFrom, nFrom, eTo, nTo])
  {
    var b := BboxText(eFrom, nFrom, eTo, nTo);
    assert ("BBOX=" + b)[5..] == b;
  }

  lemma KeyedInt(key: string, v: int)
    ensures IntParam(key + IntText(v), key, v)
  {
    assert (key + IntText(v))[..|key|] == key;
    assert (key + IntText(v))[|key|..] == IntText(v);
  }

  /** Read back, the URL of a tile names its layer, its size in pixels and its
      box, as long as the base URL holds no `&` of its own. */
  lemma MakeUrlParameters(base: string, eFrom: int, nFrom: int, eTo: int, nTo: int, layer: nat)
    requires layer < |LayerParams| && '&' !in base
    ensures var q := QuerySegments(MakeUrl(base, eFrom, nFrom, eTo, nTo, layer));
      var p := LayerParams[layer];
      |q| == 11 && q[0] == base + ProxyPath + Format && q[1..6] == FixedPieces && q[7] == Srs &&
      IntParam(q[6], "LAYERS=", p.layers) && BboxParam(q[8], [eFrom, nFrom, eTo, nTo]) &&
      IntParam(q[9], "WIDTH=", p.w) && IntParam(q[10], "HEIGHT=", p.h)
  {
    UrlSegmentsMeaning(base, eFrom, nFrom, eTo, nTo, layer);
  }
}
