# osmapper core, modelled in Dafny

`osmaps.py` is a small web gateway with two endpoints, and this project models both:

- The overlay endpoint (`osmaps`) takes a `BBOX=lat,lon,range` argument, projected to British National Grid. It picks one of four tile layers by range and snaps the centre down to that layer's grid. It answers with a KML document: a fixed header, then one `GroundOverlay` for each cell of the 11 x 11 block of grid cells around the centre, then a fixed footer. Each overlay's image URL (`make_url`) points back at the gateway's own tile proxy. The `&` separators in that URL are escaped as `&amp;`, because the URL sits inside XML.
- The tile proxy endpoint (`proxy`) asks the upstream map server for the tile up to three times and then answers with status 200. The body is the upstream image when the server returned 200. Otherwise it is one of three fallback PNGs: transparent, error or 404.

The modules follow that structure:

- `Text`: the string operations the service relies on, such as `split`, `join`, `strip` and `str()` of integers and integral floats.
- `Layers`: the layer table and the range ladder.
- `Grid`: snapping, and the block of cells.
- `TileUrl`: `make_url`, plus a reader that parses its URL back.
- `Kml`: the document parts and their text.
- `Overlay`: the `osmaps` request handler.
- `Proxy`: the retry loop and the outcome mapping.

The code that changes state step by step is written as methods proved against specification functions:

- `osmaps` appends to a body list inside a double loop. It becomes `Overlay.OsMaps` and `Overlay.AppendTiles`, proved equal to `Overlay.TiledBody`.
- The proxy's retry loop becomes `Proxy.Fetch`, proved equal to the recursive `Proxy.Retry`.

The rest is functions and lemmas.

Two consequences of the code are easy to miss:

- **Timeout retries.** A read timeout is retried on the first and on the second attempt, because the loop's flags are `(True, True, False)` (`Proxy.TwoTimeoutsRetried`).
- **Three retryable statuses.** Three replies with a retryable status such as 503 end the loop normally. The tile is then the transparent image, not the error image (`Proxy.ThreeRetryableStatusesGiveTransparent`).

A 200 reply without an `Expires` header is the one place where the model corrects the code: see Findings.

## Model

| member | source | states |
|---|---|---|
| Text.Split | osmaps.py:214-217 | `str.split` on one character gives at least one piece, no piece holds the separator, and joining the pieces with it gives the input back |
| Text.SplitJoin | osmaps.py:214-217 | splitting the join of separator-free pieces gives those pieces back (round trip) |
| Text.StripLeft | osmaps.py:215 | the result is a suffix of the input, does not start with white space, and everything dropped is white space |
| Text.StripRight | osmaps.py:215 | the result is a prefix of the input, does not end with white space, and everything dropped is white space |
| Text.Strip | osmaps.py:215 | the result is a prefix of the left-stripped text and neither starts nor ends with white space |
| Text.JoinStartsWithFirst | osmaps.py:121 | `sep.join(parts)` starts with the first part |
| Text.JoinSnoc | osmaps.py:121 | joining one more part appends the separator and that part |
| Text.JoinEnds | osmaps.py:121 | the join starts with the first part and, with two or more parts, ends with the separator and the last part |
| Text.NatText | osmaps.py:388 | the decimal text of `len(content)`: digits only, no leading zero, and it reads back as the number |
| Text.IntText | osmaps.py:129-133 | `str()` of an integer: digits with a leading minus exactly when it is negative, no leading zero and no `-0`, no `&` or comma, and it reads back as the integer |
| Text.IntegralFloatText | osmaps.py:164 | `str()` of an integral float is the integer's text followed by `.0`, with no `&` or comma |
| Layers.Sizes | osmaps.py:57-60 | `SIZES` holds every layer's tile width and nothing else |
| Layers.SizesAreTwoHundredAndTwoFifty | osmaps.py:50-60 | the tile widths are exactly 200 and 250 |
| Layers.SelectLayer | osmaps.py:241-249 | layer 3 if and only if range > 45000, layer 2 if and only if 10000 < range <= 45000, layer 1 if and only if 2000 < range <= 10000, layer 0 if and only if range <= 2000 |
| Layers.SelectLayerCountsThresholds | osmaps.py:242-249 | the ladder's layer index equals the number of thresholds (2000, 10000, 45000) the range strictly exceeds |
| Layers.SelectLayerMonotonic | osmaps.py:241-251 | a wider range never selects a finer layer or a smaller grid unit |
| Layers.ThresholdsFallToFinerLayer | osmaps.py:242-249 | a range equal to a threshold selects the finer layer; just above it selects the coarser one; the sample range 5744.95 selects layer 1 |
| Grid.FloorMod | osmaps.py:253-255 | Python's float `%` by the unit is in [0, unit) and leaves a whole multiple of the unit |
| Grid.SnapDown | osmaps.py:254-255 | `x - x % unit` is a multiple of the unit, at most x, with x below it plus one unit |
| Grid.CellAt | osmaps.py:257-263 | the cell `i` rows north and `j` columns east of the origin is one unit square, offset by `i` and `j` units |
| Grid.Block | osmaps.py:257-263 | the block holds 121 cells, each a square one unit wide |
| Grid.BlockRowMajor | osmaps.py:257-263 | position `11a + b` of the block is the cell `a - 5` rows north and `b - 5` columns east of the origin cell |
| Grid.BlockAt | osmaps.py:257-263 | the loop's cell at offsets (i, j) is at position `11(i + 5) + (j + 5)` of the block |
| Grid.BlockCellsAreGridSquares | osmaps.py:251-263 | every cell of a block around a grid-aligned origin is a square one unit wide, with grid-aligned corners |
| Grid.BlockNeighboursShareEdges | osmaps.py:257-263 | neighbours in a row share their east/west edge, and neighbours in a column share their north/south edge |
| Grid.NeighboursAt | osmaps.py:257-263 | the cell in row a, column c shares its east edge with the next cell of its row and its north edge with the cell in the same column of the next row |
| Grid.CentreCellHoldsPoint | osmaps.py:254-263 | the centre cell of the block around the snapped point holds the point |
| Grid.BlockCoversSquare | osmaps.py:257-263 | every point of the block's 11 x 11 unit square lies in exactly one cell (at least one, and never two) |
| TileUrl.UrlSegments | osmaps.py:121-134 | the eleven URL pieces; only the first, which holds the base URL, can contain `&` |
| TileUrl.BboxText | osmaps.py:131 | the BBOX value has no `&`, and it reads back as the four corners in the order given |
| TileUrl.MakeUrl | osmaps.py:114-145 | with a base URL free of `&`, every `&` of the URL starts `&amp;`, and splitting the URL at `&amp;` gives back the eleven pieces |
| TileUrl.JoinEscaped | osmaps.py:119-121 | joining `&`-free pieces with `&amp;` leaves every `&` escaped |
| TileUrl.DecodeJoined | osmaps.py:119-121 | splitting at `&` and dropping the `amp;` after each separator undoes the `&amp;` join |
| TileUrl.FixedPiecesAvoidAmpersand | osmaps.py:123-133 | none of the literal pieces of the URL template contains `&` |
| TileUrl.UrlSegmentsMeaning | osmaps.py:123-144 | the pieces are, in order: the base URL with the proxy path and PNG format; SERVICE, VERSION, REQUEST, STYLES, EXCEPTIONS; LAYERS with the layer's code; the EPSG:27700 SRS; BBOX with the corners in the order given; WIDTH and HEIGHT with the layer's tile size |
| TileUrl.MakeUrlParameters | osmaps.py:114-145 | read back from the finished URL, the query names the path, layer code, SRS, box corners and tile size as above |
| Kml.OverlayText | osmaps.py:160-175 | the tile's URL stands verbatim in its overlay text, straight after `<href>` |
| Kml.OverlayTextEscaped | osmaps.py:160-175 | with an escaped URL and `&`-free number renderings, the overlay text has every `&` escaped |
| Kml.DocumentText | osmaps.py:284 | `'\n'.join(body)`: the text starts with the first part's text and ends with a newline and the last part's text |
| Kml.DocumentFramed | osmaps.py:148-180 | a document framed by the header and footer starts with the XML declaration and ends with a newline and the footer |
| Kml.EmptyDocumentText | osmaps.py:280-284 | a body with no tiles is the header and the footer on consecutive lines |
| Overlay.Convergence | osmaps.py:110-111 | the grid convergence is zero on the 2-degrees-west central meridian, and zero wherever the sine term is |
| Overlay.ParseBbox | osmaps.py:206-222 | missing or empty BBOX if and only if MissingBbox; success if and only if there are exactly three comma-separated fields that all parse after stripping; the values are those parses, in order |
| Overlay.ParseBboxRoundTrip | osmaps.py:212-217 | three comma-free fields joined by commas parse back to the three values |
| Overlay.WrongFieldCount | osmaps.py:214-222 | a non-empty BBOX with other than three fields is rejected as not three floats |
| Overlay.InRegionIsBox | osmaps.py:224 | the region test passes exactly on the closed box 49 <= lat <= 62, -9 <= lon <= 3, range <= 1000000; the sample request passes it |
| Overlay.Origin | osmaps.py:251-255 | the origin cell is one square of the selected layer's unit |
| Overlay.OriginHoldsCentre | osmaps.py:251-255 | the origin cell holds the projected centre, and its south-west corner is a whole multiple of the unit |
| Overlay.Tiles | osmaps.py:257-278 | one overlay for each of the 121 cells |
| Overlay.TileFor | osmaps.py:258-277 | the overlay is for the given cell, its URL reads back as that cell's tile request, and the rotation is zero on the central meridian |
| Overlay.TiledBody | osmaps.py:199-280 | an in-region body is the header, 121 overlays and the footer |
| Overlay.AppendTiles | osmaps.py:257-278 | the double loop appends exactly the block's tiles, in row-major order, to the body built so far |
| Overlay.OsMaps | osmaps.py:199-291 | parse errors are returned as such; an out-of-region request gives header plus footer; a zero northing or easting gives "No origin"; otherwise the tiled body |
| Overlay.TileOfBody | osmaps.py:257-278 | body position k is the overlay of block cell k - 1 around the origin |
| Overlay.TileIsGridSquare | osmaps.py:251-263 | every tile of a reply is a grid square of the selected layer |
| Overlay.TilesShareEdges | osmaps.py:257-263 | the tile in row a, column c (position 11a + c + 1) shares its east edge with the next tile of its row, and its north edge with the tile in the same column of the next row |
| Overlay.CentreTileIsOrigin | osmaps.py:254-278 | the middle tile is the origin cell, and it holds the requested centre |
| Overlay.TileUrlNamesCell | osmaps.py:265 | read back, every tile's URL names the selected layer, its tile size and the tile's own box in west, south, east, north order |
| Overlay.TileTextEscaped | osmaps.py:265-277 | every tile's KML text has every `&` escaped |
| Proxy.Retry | osmaps.py:346-375 | the loop ends on a final status (200, 404, 500) from a reply it received, or fails, or runs out holding a reply it received |
| Proxy.Calls | osmaps.py:346-351 | the loop makes between one and three upstream calls |
| Proxy.Fetch | osmaps.py:346-390 | the `for retry in (True, True, False)` loop with `break` and `continue` ends as `Retry` says, after `Calls` upstream calls |
| Proxy.LastReply | osmaps.py:346-359 | the reply left in `os_response` is one the loop received |
| Proxy.RetryFirstStop | osmaps.py:346-390 | the loop stops at the first attempt that is not retried: with that reply if it is one, with the error image otherwise, after that many calls |
| Proxy.RetryRunsOut | osmaps.py:346-364 | when every attempt is retried, the loop runs out after one call per flag and keeps the last reply |
| Proxy.LoopAlwaysHasReply | osmaps.py:346-397 | when the loop runs out, the third call returned a non-final status, and that reply is the one kept, so `os_response` is always bound |
| Proxy.ThirdTimeoutFails | osmaps.py:366-390 | a timeout on the third attempt, after two retried attempts, gives the error image after three calls |
| Proxy.TwoTimeoutsRetried | osmaps.py:366-375 | timeouts on the first two attempts are retried, and a final reply on the third is the answer |
| Proxy.OtherErrorFailsAtOnce | osmaps.py:366-390 | any other exception ends the loop at once with the error image |
| Proxy.ImageSize | osmaps.py:323 | WIDTH, else width, else 200; an empty value falls through; a value `int()` rejects is an error |
| Proxy.FallbackImage | osmaps.py:383-390 | a fallback image exists if and only if the name and size are loaded; the reply is the PNG with status 200 and exactly two headers: type `image/png` and its own length as canonical decimal text |
| Proxy.FallbackForTileSizes | osmaps.py:63-74 | with the images loaded, a fallback exists exactly for sizes 200 and 250 |
| Proxy.LowerChar | osmaps.py:395 | ASCII upper case becomes lower case (+32); every other character is kept |
| Proxy.Lower | osmaps.py:395 | `key.lower()` keeps the length, lowers each ASCII upper-case letter (+32), keeps every other character, and leaves no upper-case letter |
| Proxy.LowerIdempotent | osmaps.py:395 | lowering twice is lowering once |
| Proxy.LowerKeys | osmaps.py:394-397 | every lowered header name is a key, and each key is a lowered header name whose value is that of the last header with that lowered name |
| Proxy.LastWins | osmaps.py:394-397 | adding one more header to the dictionary keeps every name a key and makes the new header's value win for its lowered name |
| Proxy.PassThroughAsWritten | osmaps.py:399-405 | as written: fails if and only if the upstream 200 has no `expires` header; otherwise it is the corrected forwarding |
| Proxy.PassThrough | osmaps.py:399-405 | status 200 with the body unchanged, no `expires`, `cache-control: max-age=120`, and every other lowered header kept with its value (both directions) |
| Proxy.MissingExpiresFails | osmaps.py:400 | a 200 reply without headers makes the code as written fail, while the corrected forwarding passes the body on |
| Proxy.ForwardAgreesWithCode | osmaps.py:399-405 | a 200 reply with an `expires` header is forwarded exactly as the code as written does |
| Proxy.Forward | osmaps.py:399-422 | a 200 is forwarded; a 404 becomes the 404 image; any other status becomes the transparent image |
| Proxy.Respond | osmaps.py:383-424 | a failed loop gives the error image, otherwise the kept reply is forwarded; every response sent has status 200 |
| Proxy.Proxy | osmaps.py:323-426 | a bad width fails before any upstream call; otherwise the response follows the loop's end; it always has status 200, and it never lacks an upstream reply |
| Proxy.ThreeRetryableStatusesGiveTransparent | osmaps.py:346-415 | three retryable statuses (such as 503) give the transparent image after three calls |
| Proxy.NotFoundFirstGivesNotFoundImage | osmaps.py:354-415 | a 404 on the first call gives the 404 image after one call |

## Left out

- **Opaque operations, passed as parameters.**
  - The projection between WGS84 and British National Grid is the `Geodesy` parameter (`convert_bng`, `convert_lonlat`), and so are `math.sin` and `math.pi`. The model states nothing about their accuracy.
  - `float()` and `int()` on strings are parameters, and so is the float rendering `str.format` uses for latitudes, longitudes and rotations.
  - The model checks only that these renderings contain no `&`.
- **Floats are idealised as reals.**
  - NaN and infinities are not modelled.
  - `%` is modelled as exact floored remainder.
  - Snapped corners are exact integers.
- Text.IntegralFloatText: models `str()` of an integral float only. That is `k.0` for |k| < 10^16, which covers every grid coordinate; larger values would print in exponent form.
- **Proxy request preparation (osmaps.py:298-344) is left out.** This covers lowercasing and rewriting the request headers, adding the key and URL arguments, and URL-encoding the query. The upstream call is an input `Attempt` per pass, so the upstream URL and headers do not appear.
- **Runtime plumbing is left out.** This covers logging, environment and start-up configuration, reading the PNG files (the images are the `Pngs` parameter), Flask request/response objects, response content types and the `bad_request` message texts. It also covers `gunicorn_config.py` and `osmaps_tests.py`.
- Proxy.Lower: models `str.lower` on ASCII letters only; other cased Unicode letters are kept.
- Kml.OverlayTextEscaped: escaping is proved for each tile's text, not for the whole document. The header literal is not checked for `&`.
- Proxy.Fetch: requires exactly three attempt outcomes, one per pass of the loop, even when the loop stops earlier. Unused outcomes are ignored, and `Calls` says how many were used. `break` is modelled as returning from the loop with the same state.
- Proxy.Proxy: requires the same three attempt outcomes.
- Proxy.Forward: uses the corrected forwarding `Proxy.PassThrough` for a 200 reply (see Findings). For a 200 reply without an `Expires` header the code as written fails with a server error, where the model forwards the tile. With the header present the two agree (`Proxy.ForwardAgreesWithCode`).
- Proxy.Respond: forwards a kept 200 reply through `Proxy.Forward`, so it too uses the corrected forwarding.
- Proxy.Proxy: also uses the corrected forwarding, through `Proxy.Respond`.
- An upstream call that raises something other than a `RequestException` is not modelled.
- Overlay.OsMaps: returns the response body as a list of parts. `Kml.DocumentText` gives its newline-joined text. The HTTP status and headers of the KML response are not modelled.
- Text.Strip: its own contract does not say that the characters dropped at the end are white space. That fact is stated by `Text.StripRight`, which `Strip` applies.

## Findings

| source | as written | input that shows it | evidently intended | confidence | as-written member | corrected member |
|---|---|---|---|---|---|---|
| osmaps.py:400 | `os_headers.pop('expires')` raises `KeyError` when the upstream 200 reply has no `Expires` header, so the tile request fails with a server error | an upstream reply with status 200 and no headers | drop `expires` if present (`pop('expires', None)`) and forward the tile | not executed | Proxy.PassThroughAsWritten, Proxy.MissingExpiresFails | Proxy.PassThrough |
