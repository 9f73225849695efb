/** The tile proxy endpoint (`osproxy`): fetch a tile from the upstream map
    server with up to three attempts, then answer with the upstream image or
    one of the fallback images, always with status 200. */
module Proxy {
  import opened Wrappers
  import opened Text
  import opened Layers

  type Bytes = seq<bv8>

  /** One upstream reply: status code, body and headers as the server listed them. */
  datatype Upstream = Upstream(status: int, content: Bytes, headers: seq<(string, string)>)

  /** What one `SESSION.get` call gave: a reply, a `ReadTimeout`, or any other
      `RequestException`. */
  datatype Attempt = Responded(response: Upstream) | ReadTimeout | OtherError

  /** The `retry` flag of each pass of the loop: a `ReadTimeout` is retried on
      the first and second attempts only. */
  const RetryFlags: seq<bool> := [true, true, false]

  const Ok: int := 200
  const NotFound: int := 404
  const InternalServerError: int := 500

  /** A status that ends the loop. */
  predicate IsFinal(status: int)
  {
    status == Ok || status == NotFound || status == InternalServerError
  }

  /** Whether a pass with this outcome and flag goes round the loop again. */
  predicate Retryable(a: Attempt, retry: bool)
  {
    (a.Responded? && !IsFinal(a.response.status)) || (a.ReadTimeout? && retry)
  }

  /** How the loop ends: it broke on a final status; it returned the error image;
      or it ran out of passes, leaving `os_response` as the last reply it got
      (none at all if no pass got one). */
  datatype LoopEnd = Answered(response: Upstream) | Failed | Exhausted(last: Option<Upstream>)

  /** The loop over `flags`, one attempt per pass, `prev` being the reply the
      earlier passes left in `os_response`. */
  function Retry(flags: seq<bool>, attempts: seq<Attempt>, prev: Option<Upstream>): (e: LoopEnd)
    requires |attempts| == |flags|
    ensures e.Answered? ==> IsFinal(e.response.status) && Responded(e.response) in attempts
    ensures e.Exhausted? && e.last.Some? ==>
      e.last == prev || Responded(e.last.value) in attempts
    decreases |flags|
  {
    if |flags| == 0 then Exhausted(prev)
    else
      var e := match attempts[0]
        case Responded(u) => if IsFinal(u.status) then Answered(u) else Retry(flags[1..], attempts[1..], Some(u))
        case ReadTimeout => if flags[0] then Retry(flags[1..], attempts[1..], prev) else Failed
        case OtherError => Failed;
      assert forall a :: a in attempts[1..] ==> a in attempts;
      e
  }

  /** The number of upstream calls the loop makes. */
  function Calls(flags: seq<bool>, attempts: seq<Attempt>): (n: nat)
    requires |attempts| == |flags|
    ensures n <= |flags|
    ensures |flags| > 0 ==> n >= 1
    decreases |flags|
  {
    if |flags| == 0 then 0
    else if Retryable(attempts[0], flags[0]) then 1 + Calls(flags[1..], attempts[1..])
    else 1
  }

  /** The `for retry in (True, True, False)` loop: `attempts[i]` is what the
      `i`-th call to the upstream server gives. */
  method Fetch(attempts: seq<Attempt>) returns (end: LoopEnd, calls: nat)
    requires |attempts| == |RetryFlags|
    ensures end == Retry(RetryFlags, attempts, None)
    ensures calls == Calls(RetryFlags, attempts)
  {
    var osResponse: Option<Upstream> := None;
    calls := 0;
    for i := 0 to |RetryFlags|
      invariant calls == i
      invariant Retry(RetryFlags, attempts, None) == Retry(RetryFlags[i..], attempts[i..], osResponse)
      invariant Calls(RetryFlags, attempts) == i + Calls(RetryFlags[i..], attempts[i..])
    {
      var retry := RetryFlags[i];
      calls := calls + 1;
      match attempts[i] {
        case Responded(u) =>
          osResponse := Some(u);
          if IsFinal(u.status) {
            return Answered(u), calls;
          }
        case ReadTimeout =>
          if !retry {
            return Failed, calls;
          }
        case OtherError =>
          return Failed, calls;
      }
      assert RetryFlags[i + 1..] == RetryFlags[i..][1..];
      assert attempts[i + 1..] == attempts[i..][1..];
    }
    end := Exhausted(osResponse);
  }

  /** The reply the earlier passes leave when the loop stops at pass `k`. */
  function LastReply(attempts: seq<Attempt>, prev: Option<Upstream>, k: nat): (r: Option<Upstream>)
    requires k <= |attempts|
    ensures r.Some? ==> r == prev || Responded(r.value) in attempts[..k]
    decreases k
  {
    if k == 0 then prev
    else if attempts[k - 1].Responded? then Some(attempts[k - 1].response)
    else
      var r := LastReply(attempts, prev, k - 1);
      assert attempts[..k - 1] == attempts[..k][..k - 1];
      r
  }

  /** The loop stops at the first pass that does not go round again: with that
      reply if it is final, with the error image otherwise, after `k + 1` calls. */
  lemma {:induction false} RetryFirstStop(flags: seq<bool>, attempts: seq<Attempt>, prev: Option<Upstream>, k: nat)
    requires |attempts| == |flags| && k < |flags|
    requires forall i :: 0 <= i < k ==> Retryable(attempts[i], flags[i])
    requires !Retryable(attempts[k], flags[k])
    ensures Retry(flags, attempts, prev) ==
      (if attempts[k].Responded? then Answered(attempts[k].response) else Failed)
    ensures Calls(flags, attempts) == k + 1
    decreases k
  {
    if k > 0 {
      assert Retryable(attempts[0], flags[0]);
      var next := if attempts[0].Responded? then Some(attempts[0].response) else prev;
      RetryFirstStop(flags[1..], attempts[1..], next, k - 1);
    }
  }

  /** When every pass goes round again, the loop runs out after one call per
      flag, holding the last reply it got. */
  lemma {:induction false} RetryRunsOut(flags: seq<bool>, attempts: seq<Attempt>, prev: Option<Upstream>)
    requires |attempts| == |flags|
    requires forall i :: 0 <= i < |flags| ==> Retryable(attempts[i], flags[i])
    ensures Retry(flags, attempts, prev) == Exhausted(LastReply(attempts, prev, |attempts|))
    ensures Calls(flags, attempts) == |flags|
    decreases |flags|
  {
    if |flags| > 0 {
      var next := if attempts[0].Responded? then Some(attempts[0].response) else prev;
      RetryRunsOut(flags[1..], attempts[1..], next);
      LastReplyShift(attempts, prev, |attempts|);
    }
  }

  /** Dropping the first attempt moves its reply, if any, into `prev`. */
  lemma {:induction false} LastReplyShift(attempts: seq<Attempt>, prev: Option<Upstream>, k: nat)
    requires 1 <= k <= |attempts|
    ensures LastReply(attempts[1..], if attempts[0].Responded? then Some(attempts[0].response) else prev, k - 1)
      == LastReply(attempts, prev, k)
    decreases k
  {
    if k > 1 {
      LastReplyShift(attempts, prev, k - 1);
    }
  }

  /** With the flags `(True, True, False)` the loop never runs out without a
      reply: when it runs out, the third call returned a status that is not final. */
  lemma LoopAlwaysHasReply(attempts: seq<Attempt>)
    requires |attempts| == |RetryFlags|
    ensures Retry(RetryFlags, attempts, None).Exhausted? ==>
      attempts[2].Responded? && !IsFinal(attempts[2].response.status) &&
      Retry(RetryFlags, attempts, None).last == Some(attempts[2].response)
  {
    if Retry(RetryFlags, attempts, None).Exhausted? {
      if forall i :: 0 <= i < 3 ==> Retryable(attempts[i], RetryFlags[i]) {
        RetryRunsOut(RetryFlags, attempts, None);
      } else {
        var k :| 0 <= k < 3 && !Retryable(attempts[k], RetryFlags[k]) &&
          forall i :: 0 <= i < k ==> Retryable(attempts[i], RetryFlags[i]);
        RetryFirstStop(RetryFlags, attempts, None, k);
      }
    }
  }

  /** A `ReadTimeout` on the third attempt gives the error image once the first
      two attempts were retried, after three calls. */
  lemma ThirdTimeoutFails(attempts: seq<Attempt>)
    requires |attempts| == |RetryFlags|
    requires Retryable(attempts[0], true) && Retryable(attempts[1], true)
    requires attempts[2] == ReadTimeout
    ensures Retry(RetryFlags, attempts, None) == Failed
    ensures Calls(RetryFlags, attempts) == 3
  {
    RetryFirstStop(RetryFlags, attempts, None, 2);
  }

  /** Timeouts on the first two attempts are retried: a final reply on the third
      is the answer. */
  lemma TwoTimeoutsRetried(u: Upstream)
    requires IsFinal(u.status)
    ensures Retry(RetryFlags, [ReadTimeout, ReadTimeout, Responded(u)], None) == Answered(u)
    ensures Calls(RetryFlags, [ReadTimeout, ReadTimeout, Responded(u)]) == 3
  {
    RetryFirstStop(RetryFlags, [ReadTimeout, ReadTimeout, Responded(u)], None, 2);
  }

  /** Any other exception gives the error image at once, on any attempt. */
  lemma OtherErrorFailsAtOnce(attempts: seq<Attempt>, k: nat)
    requires |attempts| == |RetryFlags| && k < 3 && attempts[k] == OtherError
    requires forall i :: 0 <= i < k ==> Retryable(attempts[i], RetryFlags[i])
    ensures Retry(RetryFlags, attempts, None) == Failed
    ensures Calls(RetryFlags, attempts) == k + 1
  {
    RetryFirstStop(RetryFlags, attempts, None, k);
  }

  /** The three fallback images. */
  datatype Fallback = Transparent | ErrorImage | NotFoundImage

  /** `PNGS`: the fallback images by name and size in pixels. */
  type Pngs = map<Fallback, map<int, Bytes>>

  /** As loaded at start-up: every name, each at every tile size of the layers. */
  predicate PngsLoaded(pngs: Pngs)
  {
    forall name: Fallback :: name in pngs && pngs[name].Keys == Sizes()
  }

  /** Why the service answers 500 Internal Server Error: `int()` rejects the
      width, `PNGS` has no image of that size, a header to remove is missing, or
      there is no upstream reply to forward. */
  datatype ServerError = BadWidth | NoImage | NoExpires | NoReply

  /** The response the proxy sends. */
  datatype Reply = Reply(status: int, body: Bytes, headers: map<string, string>)

  /** The default tile size when the request names none. */
  const DefaultSize: int := 200

  /** `int(args.get('WIDTH') or args.get('width') or 200)`: an absent or empty
      value falls through to the next choice; `parseInt` is `int()` on a string. */
  function ImageSize(args: map<string, string>, parseInt: string -> Option<int>): (r: Result<int, ServerError>)
    ensures "WIDTH" in args && args["WIDTH"] != "" ==>
      r == if parseInt(args["WIDTH"]).Some? then Success(parseInt(args["WIDTH"]).value) else Failure(BadWidth)
    ensures ("WIDTH" !in args || args["WIDTH"] == "") && "width" in args && args["width"] != "" ==>
      r == if parseInt(args["width"]).Some? then Success(parseInt(args["width"]).value) else Failure(BadWidth)
    ensures ("WIDTH" !in args || args["WIDTH"] == "") && ("width" !in args || args["width"] == "") ==>
      r == Success(DefaultSize)
  {
    var chosen :=
      if "WIDTH" in args && args["WIDTH"] != "" then Some(args["WIDTH"])
      else if "width" in args && args["width"] != "" then Some(args["width"])
      else None;
    match chosen
    case None => Success(DefaultSize)
    case Some(text) =>
      match parseInt(text)
      case None => Failure(BadWidth)
      case Some(size) => Success(size)
  }

  /** A fallback image as a response: the PNG bytes with their type and length. */
  function FallbackImage(pngs: Pngs, name: Fallback, size: int): (r: Result<Reply, ServerError>)
    ensures r.Success? <==> name in pngs && size in pngs[name]
    ensures r.Failure? ==> r.error == NoImage
    ensures r.Success? ==>
      r.value.status == Ok && r.value.body == pngs[name][size] &&
      "Content-Type" in r.value.headers && r.value.headers["Content-Type"] == "image/png" &&
      "Content-Length" in r.value.headers && DigitsValue(r.value.headers["Content-Length"]) == |r.value.body|
    ensures r.Success? ==>
      r.value.headers.Keys == {"Content-Type", "Content-Length"} &&
      r.value.headers["Content-Length"] == NatText(|r.value.body|)
  {
    if name in pngs && size in pngs[name] then
      var content := pngs[name][size];
      Success(Reply(Ok, content, map["Content-Type" := "image/png", "Content-Length" := NatText(|content|)]))
    else Failure(NoImage)
  }

  /** With the images loaded, a fallback image exists exactly for the tile sizes
      of the layers, 200 and 250 pixels. */
  lemma FallbackForTileSizes(pngs: Pngs, name: Fallback, size: int)
    requires PngsLoaded(pngs)
    ensures FallbackImage(pngs, name, size).Success? <==> size == 200 || size == 250
  {
    SizesAreTwoHundredAndTwoFifty();
    assert name in pngs && pngs[name].Keys == Sizes();
  }

  /** ASCII upper case to lower case; every other character is kept. */
  function LowerChar(ch: char): (r: char)
    ensures !('A' <= r <= 'Z')
    ensures !('A' <= ch <= 'Z') ==> r == ch
    ensures 'A' <= ch <= 'Z' ==> r as int == ch as int + 32
  {
    if 'A' <= ch <= 'Z' then (ch as int - 'A' as int + 'a' as int) as char else ch
  }

  /** `key.lower()` for a header name. */
  function Lower(s: string): (r: string)
    ensures |r| == |s|
    ensures forall i :: 0 <= i < |r| ==> !('A' <= r[i] <= 'Z')
    ensures forall i :: 0 <= i < |s| ==>
      ('A' <= s[i] <= 'Z' ==> r[i] as int == s[i] as int + 32) && (!('A' <= s[i] <= 'Z') ==> r[i] == s[i])
  {
    seq(|s|, i requires 0 <= i < |s| => LowerChar(s[i]))
  }

  /** Lowering is idempotent. */
  lemma LowerIdempotent(s: string)
    ensures Lower(Lower(s)) == Lower(s)
  {
    var l := Lower(s);
    forall i | 0 <= i < |l| ensures LowerChar(l[i]) == l[i] {
      assert !('A' <= l[i] <= 'Z');
    }
  }

  /** `{key.lower(): value for key, value in headers.items()}`: keys lowered,
      a later header overriding an earlier one with the same lowered name. */
  function LowerKeys(items: seq<(string, string)>): (m: map<string, string>)
    ensures forall i :: 0 <= i < |items| ==> Lower(items[i].0) in m
    ensures |items| > 0 ==> m[Lower(items[|items| - 1].0)] == items[|items| - 1].1
    ensures forall key :: key in m ==> exists i :: LastNamed(items, key, i) && m[key] == items[i].1
    decreases |items|
  {
    if |items| == 0 then map[]
    else
      var init := items[..|items| - 1];
      var last := items[|items| - 1];
      var m := LowerKeys(init)[Lower(last.0) := last.1];
      LastWins(items, LowerKeys(init));
      m
  }

  /** The inductive step of `LowerKeys`: adding the last header keeps every
      name and keeps every value the last one of its name. */
  lemma LastWins(items: seq<(string, string)>, m0: map<string, string>)
    requires |items| > 0
    requires var init := items[..|items| - 1];
      forall i :: 0 <= i < |init| ==> Lower(init[i].0) in m0
    requires var init := items[..|items| - 1];
      forall key :: key in m0 ==> exists i :: LastNamed(init, key, i) && m0[key] == init[i].1
    ensures var m := m0[Lower(items[|items| - 1].0) := items[|items| - 1].1];
      forall i :: 0 <= i < |items| ==> Lower(items[i].0) in m
    ensures var m := m0[Lower(items[|items| - 1].0) := items[|items| - 1].1];
      forall key :: key in m ==> exists i :: LastNamed(items, key, i) && m[key] == items[i].1
  {
    var init := items[..|items| - 1];
    var last := items[|items| - 1];
    var m := m0[Lower(last.0) := last.1];
    forall i | 0 <= i < |items| ensures Lower(items[i].0) in m {
      if i < |init| {
        assert items[i] == init[i];
      }
    }
    forall key | key in m ensures exists i :: LastNamed(items, key, i) && m[key] == items[i].1 {
      if key == Lower(last.0) {
        assert LastNamed(items, key, |items| - 1);
      } else {
        var i :| LastNamed(init, key, i) && m0[key] == init[i].1;
        assert items[i] == init[i];
        LastNamedExtends(items, key, i);
      }
    }
  }

  /** A later header with another name leaves the last one named `key` last. */
  lemma LastNamedExtends(items: seq<(string, string)>, key: string, i: int)
    requires |items| > 0 && Lower(items[|items| - 1].0) != key
    requires LastNamed(items[..|items| - 1], key, i)
    ensures LastNamed(items, key, i)
  {
    var init := items[..|items| - 1];
    forall j | i < j < |items| ensures Lower(items[j].0) != key {
      if j < |init| {
        assert items[j] == init[j];
      }
    }
  }

  /** Item `i` is the last of the headers whose lowered name is `key`. */
  predicate LastNamed(items: seq<(string, string)>, key: string, i: int)
  {
    0 <= i < |items| && Lower(items[i].0) == key &&
    forall j :: i < j < |items| ==> Lower(items[j].0) != key
  }

  /** The cache lifetime the proxy sets on forwarded tiles. */
  const MaxAge: string := "max-age=120"

  /** The upstream 200 reply as `proxy()` forwards it, as written: `pop('expires')`
      fails when the reply carries no `Expires` header. */
  function PassThroughAsWritten(u: Upstream): (r: Result<Reply, ServerError>)
    ensures r.Failure? <==> "expires" !in LowerKeys(u.headers)
    ensures r.Failure? ==> r.error == NoExpires
    ensures r.Success? ==> r.value == PassThrough(u)
  {
    var headers := LowerKeys(u.headers);
    if "expires" !in headers then Failure(NoExpires)
    else Success(Reply(Ok, u.content, (headers - {"expires"})["cache-control" := MaxAge]))
  }

  /** The upstream 200 reply as forwarded: the body unchanged, `expires` removed
      when present, `cache-control` set, every other (lowered) header kept. */
  function PassThrough(u: Upstream): (r: Reply)
    ensures r.status == Ok && r.body == u.content
    ensures "expires" !in r.headers
    ensures "cache-control" in r.headers && r.headers["cache-control"] == MaxAge
    ensures forall key :: key in r.headers && key != "cache-control" ==>
      key in LowerKeys(u.headers) && r.headers[key] == LowerKeys(u.headers)[key]
    ensures forall key :: key in LowerKeys(u.headers) && key != "expires" ==> key in r.headers
  {
    var headers := LowerKeys(u.headers);
    Reply(Ok, u.content, (headers - {"expires"})["cache-control" := MaxAge])
  }

  /** A 200 reply without an `Expires` header makes the code as written answer
      500, where the corrected forwarding passes the tile on. */
  lemma MissingExpiresFails(content: Bytes)
    ensures PassThroughAsWritten(Upstream(Ok, content, [])).Failure?
    ensures PassThrough(Upstream(Ok, content, [])).body == content
  {
    assert LowerKeys([]) == map[];
  }

  /** The reply for the reply the loop kept: a 200 is forwarded, a 404 becomes
      the `404` image and any other status the transparent image. */
  function Forward(u: Upstream, pngs: Pngs, size: int): (r: Result<Reply, ServerError>)
    ensures u.status == Ok ==> r == Success(PassThrough(u))
    ensures u.status == NotFound ==> r == FallbackImage(pngs, NotFoundImage, size)
    ensures u.status != Ok && u.status != NotFound ==> r == FallbackImage(pngs, Transparent, size)
  {
    if u.status == Ok then Success(PassThrough(u))
    else FallbackImage(pngs, if u.status == NotFound then NotFoundImage else Transparent, size)
  }

  /** When the upstream 200 reply carries an `Expires` header, forwarding
      agrees with the code as written. */
  lemma ForwardAgreesWithCode(u: Upstream, pngs: Pngs, size: int)
    requires u.status == Ok && "expires" in LowerKeys(u.headers)
    ensures Forward(u, pngs, size) == PassThroughAsWritten(u)
  {
  }

  /** The response after the loop: the error image if the loop gave up, else
      the forwarded reply; every response sent has status 200. */
  function Respond(end: LoopEnd, pngs: Pngs, size: int): (r: Result<Reply, ServerError>)
    ensures r.Success? ==> r.value.status == Ok
    ensures end.Failed? ==> r == FallbackImage(pngs, ErrorImage, size)
    ensures end.Answered? ==> r == Forward(end.response, pngs, size)
    ensures end.Exhausted? && end.last.Some? ==> r == Forward(end.last.value, pngs, size)
  {
    match end
    case Failed => FallbackImage(pngs, ErrorImage, size)
    case Answered(u) => Forward(u, pngs, size)
    case Exhausted(last) =>
      match last
      case None => Failure(NoReply)
      case Some(u) => Forward(u, pngs, size)
  }

  /** `proxy()`: the tile size first (a bad width fails before any upstream
      call), then the loop, then the response. */
  method Proxy(args: map<string, string>, parseInt: string -> Option<int>, pngs: Pngs, attempts: seq<Attempt>)
    returns (resp: Result<Reply, ServerError>, calls: nat)
    requires |attempts| == |RetryFlags|
    ensures ImageSize(args, parseInt).Failure? ==> resp == Failure(BadWidth) && calls == 0
    ensures ImageSize(args, parseInt).Success? ==>
      resp == Respond(Retry(RetryFlags, attempts, None), pngs, ImageSize(args, parseInt).value) &&
      calls == Calls(RetryFlags, attempts)
    ensures resp.Success? ==> resp.value.status == Ok
    ensures resp.Failure? ==> resp.error != NoReply
  {
    var size := ImageSize(args, parseInt);
    if size.Failure? {
      return Failure(size.error), 0;
    }
    var end;
    end, calls := Fetch(attempts);
    LoopAlwaysHasReply(attempts);
    resp := Respond(end, pngs, size.value);
  }

  /** Three replies with a retryable status such as 503 end the loop normally,
      and the tile is the transparent image. */
  lemma ThreeRetryableStatusesGiveTransparent(u1: Upstream, u2: Upstream, u3: Upstream, pngs: Pngs, size: int)
    requires !IsFinal(u1.status) && !IsFinal(u2.status) && !IsFinal(u3.status)
    ensures var attempts := [Responded(u1), Responded(u2), Responded(u3)];
      Respond(Retry(RetryFlags, attempts, None), pngs, size) == FallbackImage(pngs, Transparent, size) &&
      Calls(RetryFlags, attempts) == 3
  {
    var attempts := [Responded(u1), Responded(u2), Responded(u3)];
    RetryRunsOut(RetryFlags, attempts, None);
    assert LastReply(attempts, None, 3) == Some(u3);
  }

  /** A 404 on the first call ends the loop at once with the `404` image. */
  lemma NotFoundFirstGivesNotFoundImage(u: Upstream, rest: seq<Attempt>, pngs: Pngs, size: int)
    requires u.status == NotFound && |rest| == 2
    ensures Respond(Retry(RetryFlags, [Responded(u)] + rest, None), pngs, size) ==
      FallbackImage(pngs, NotFoundImage, size)
    ensures Calls(RetryFlags, [Responded(u)] + rest) == 1
  {
    RetryFirstStop(RetryFlags, [Responded(u)] + rest, None, 0);
  }
}
