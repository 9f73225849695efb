/** The KML document the overlay endpoint returns: a fixed header, one
    `GroundOverlay` per tile, and a fixed footer, joined by newlines. */
module Kml {
  import opened Text
  import opened Grid

  /** What `kml_overlay` is given for one tile: the image URL, the cell's
      corners in grid metres, the cell's edges in degrees (top, bottom, right,
      left) and the rotation in degrees. */
  datatype GroundOverlay = GroundOverlay(
    url: string, cell: Cell,
    top: real, bottom: real, right: real, left: real, rotation: real)

  /** One element of the response body list. */
  datatype Part = Header | Tile(overlay: GroundOverlay) | Footer

  /** `KML_HEADER`, line by line. */
  const HeaderLines: seq<string> := [
    XmlDeclaration,
    "<kml xmlns=\"http://earth.google.com/kml/2.2\">",
    "<Folder>",
    "    <name>Unofficial OS Overlay V2</name>",
    "    <ScreenOverlay>",
    "        <name><![CDATA[\U{A9} Crown Copyright and database right 2008. All rights reserved. "
      + "<a href=\"http://openspace.ordnancesurvey.co.uk/openspace/developeragreement.html#enduserlicense\">"
      + "End User License Agreement</a>]]></name>",
    "        <Icon>https://www.ordnancesurvey.co.uk/images/ui/os-logo.png</Icon>",
    "        <screenXY x=\"105\" y=\"45\" xunits=\"pixels\" yunits=\"pixels\" />",
    "        <color>80ffffff</color>",
    "    </ScreenOverlay>"
  ]

  const XmlDeclaration: string := "<?xml version=\"1.0\" encoding=\"UTF-8\"?>"

  const HeaderText: string := Join(HeaderLines, "\n")

  /** `KML_FOOTER`. */
  const FooterText: string := "    </Folder>\n</kml>"

  /** `kml_overlay(url, s, w, n, e, t, b, r, l, rot)`: the fixed template with the
      values filled in. Grid corners are integral floats; `fmt` renders the
      other floats as Python's `str.format` does. The tile's URL stands
      verbatim in the text, right after `<href>`. */
  function OverlayText(o: GroundOverlay, fmt: real -> string): (t: string)
    ensures var before := Join(OverlayBefore(o.cell), "");
      6 <= |before| && |before| + |o.url| <= |t| &&
      before[|before| - 6..] == "<href>" && t[|before|..|before| + |o.url|] == o.url
  {
    var before := Join(OverlayBefore(o.cell), "");
    var after := Join(OverlayAfter(o, fmt), "");
    BeforeEndsWithHref(o.cell);
    Infix(before, o.url, after);
    before + o.url + after
  }

  lemma BeforeEndsWithHref(c: Cell)
    ensures var before := Join(OverlayBefore(c), "");
      6 <= |before| && before[|before| - 6..] == "<href>"
  {
    JoinSnoc(OverlayOpening(c), HrefTag, "");
  }

  lemma Infix(a: string, m: string, z: string)
    ensures (a + m + z)[|a|..|a| + |m|] == m
  {
  }

  /** With the URL escaped and no `&` in the rendered numbers, the overlay text
      is escaped as XML text must be. */
  lemma OverlayTextEscaped(o: GroundOverlay, fmt: real -> string)
    requires AmpersandsEscaped(o.url)
    requires forall x :: '&' !in fmt(x)
    ensures AmpersandsEscaped(OverlayText(o, fmt))
  {
    var before, after := OverlayBefore(o.cell), OverlayAfter(o, fmt);
    BeforeAvoidsAmpersand(o.cell);
    AfterAvoidsAmpersand(o, fmt);
    forall p | p in before ensures AmpersandsEscaped(p) {
      NoAmpersandEscaped(p);
    }
    forall p | p in after ensures AmpersandsEscaped(p) {
      NoAmpersandEscaped(p);
    }
    JoinKeepsEscaped(before, "");
    JoinKeepsEscaped(after, "");
    EscapedConcat(Join(before, ""), o.url);
    EscapedConcat(Join(before, "") + o.url, Join(after, ""));
  }

  lemma BeforeAvoidsAmpersand(c: Cell)
    ensures forall p :: p in OverlayBefore(c) ==> '&' !in p
  {
    var opening := OverlayOpening(c);
    OpeningAvoidsAmpersand(c);
    LiteralAvoidsAmpersand(HrefTag);
    forall p | p in opening + [HrefTag] ensures '&' !in p {
      if p != HrefTag {
        assert p in opening;
      }
    }
  }

  lemma OpeningAvoidsAmpersand(c: Cell)
    ensures forall p :: p in OverlayOpening(c) ==> '&' !in p
  {
    LiteralAvoidsAmpersand("    <GroundOverlay>\n");
    LiteralAvoidsAmpersand("        <name>OS Overlay</name>\n");
    LiteralAvoidsAmpersand("        <description>");
    LiteralAvoidsAmpersand("</description>\n");
    LiteralAvoidsAmpersand("        <Icon>\n");
  }

  lemma AfterAvoidsAmpersand(o: GroundOverlay, fmt: real -> string)
    requires forall x :: '&' !in fmt(x)
    ensures forall p :: p in OverlayAfter(o, fmt) ==> '&' !in p
  {
  }

  /** The template up to the URL: the opening lines, then the `<href>` tag. */
  function OverlayBefore(c: Cell): seq<string>
  {
    OverlayOpening(c) + [HrefTag]
  }

  const HrefTag: string := "            <href>"

  function OverlayOpening(c: Cell): seq<string>
  {
    [ "    <GroundOverlay>\n",
      "        <name>OS Overlay</name>\n",
      "        <description>",
      IntegralFloatText(c.s), ",", IntegralFloatText(c.w), ",",
      IntegralFloatText(c.n), ",", IntegralFloatText(c.e),
      "</description>\n",
      "        <Icon>\n" ]
  }

  /** The template after the URL. */
  function OverlayAfter(o: GroundOverlay, fmt: real -> string): seq<string>
  {
    [ "</href>\n",
      "        </Icon>\n",
      "        <LatLonBox>\n",
      "            <north>", fmt(o.top), "</north>\n",
      "            <south>", fmt(o.bottom), "</south>\n",
      "            <east>", fmt(o.right), "</east>\n",
      "            <west>", fmt(o.left), "</west>\n",
      "            <rotation>", fmt(o.rotation), "</rotation>\n",
      "        </LatLonBox>\n",
      "    </GroundOverlay>" ]
  }

  function PartText(p: Part, fmt: real -> string): string
  {
    match p
    case Header => HeaderText
    case Tile(o) => OverlayText(o, fmt)
    case Footer => FooterText
  }

  /** `'\n'.join(body)`: the document text of a response body. It starts with
      the text of the first part, and the last part stands on its own last line. */
  function DocumentText(body: seq<Part>, fmt: real -> string): (t: string)
    ensures |body| > 0 ==> var first := PartText(body[0], fmt);
      |first| <= |t| && t[..|first|] == first
    ensures |body| > 1 ==> var last := PartText(body[|body| - 1], fmt);
      |last| < |t| && t[|t| - |last| - 1..] == "\n" + last
  {
    var texts := PartTexts(body, fmt);
    JoinEnds(texts, "\n");
    Join(texts, "\n")
  }

  function PartTexts(body: seq<Part>, fmt: real -> string): (texts: seq<string>)
    ensures |texts| == |body|
    ensures forall k :: 0 <= k < |body| ==> texts[k] == PartText(body[k], fmt)
  {
    seq(|body|, k requires 0 <= k < |body| => PartText(body[k], fmt))
  }

  /** A body that opens with the header and closes with the footer is a KML
      document: it starts with the XML declaration and ends by closing the
      folder and the `kml` element. */
  lemma DocumentFramed(body: seq<Part>, fmt: real -> string)
    requires |body| >= 2 && body[0] == Header && body[|body| - 1] == Footer
    ensures var t := DocumentText(body, fmt);
      |XmlDeclaration| <= |t| && t[..|XmlDeclaration|] == XmlDeclaration &&
      |FooterText| + 1 <= |t| && t[|t| - |FooterText| - 1..] == "\n" + FooterText
  {
    var t := DocumentText(body, fmt);
    JoinStartsWithFirst(HeaderLines, "\n");
    PrefixOfPrefix(t, HeaderText, XmlDeclaration);
  }

  lemma PrefixOfPrefix(t: string, p: string, q: string)
    requires |p| <= |t| && t[..|p|] == p
    requires |q| <= |p| && p[..|q|] == q
    ensures |q| <= |t| && t[..|q|] == q
  {
    assert t[..|q|] == t[..|p|][..|q|];
  }

  /** The document with no tiles is the header and the footer on consecutive lines. */
  lemma EmptyDocumentText(fmt: real -> string)
    ensures DocumentText([Header, Footer], fmt) == HeaderText + "\n" + FooterText
  {
    var texts := PartTexts([Header, Footer], fmt);
    assert texts == [HeaderText, FooterText];
    assert texts[1..] == [FooterText];
    assert Join(texts, "\n") == HeaderText + "\n" + Join([FooterText], "\n");
  }
}
