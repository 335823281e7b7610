/**
 * The acquisition request string that `hdf_code` builds from the start date,
 * end date, duration and node options (dpmData.py, lines 113-139).
 *
 * A date is any value of a type `T`; `local_to_utc_ms` is the parameter
 * `toUtcMs`, so the model fixes nothing about time zones. The current time
 * (`datetime.datetime.now()`) is the parameter `now`.
 */
module Request {
  import opened Wrappers
  import opened Text

  /** The time options as argparse hands them over; `None` is an option left out. */
  datatype Args<T> = Args(startDate: Option<T>, endDate: Option<T>, duration: Option<string>, node: Option<string>)

  /** Why no request is built. The first two end the program with `sys.exit(2)`;
      the third is the `ValueError` that `int()` raises on a malformed duration. */
  datatype Error = ConflictingTimeSpec | MissingStartTime | InvalidDuration(text: string)

  /** The time window a request asks for, in UTC milliseconds. */
  datatype Window = Logger(startMs: int, endMs: int) | LoggerDuration(ms: int) | NoWindow

  /** A request: its window and the optional node qualifier. */
  datatype Request = Request(window: Window, node: Option<string>)

  /** Python truthiness of an optional string: present and not empty. */
  predicate Truthy(o: Option<string>)
  {
    o.Some? && o.value != ""
  }

  /** The if/elif chain of lines 115-136, then the node test of line 138. */
  function Decide<T>(a: Args<T>, now: T, toUtcMs: T -> int): Result<Request, Error>
  {
    var node := if Truthy(a.node) then a.node else None;
    if Truthy(a.duration) && (a.startDate.Some? || a.endDate.Some?) then
      Failure(ConflictingTimeSpec)
    else if a.startDate.Some? && a.endDate.Some? then
      Success(Request(Logger(toUtcMs(a.startDate.value), toUtcMs(a.endDate.value)), node))
    else if a.startDate.Some? then
      Success(Request(Logger(toUtcMs(a.startDate.value), toUtcMs(now)), node))
    else if a.endDate.Some? then
      Failure(MissingStartTime)
    else if Truthy(a.duration) then
      match ParseInt(a.duration.value)
      case None => Failure(InvalidDuration(a.duration.value))
      case Some(seconds) => Success(Request(LoggerDuration(seconds * 1000), node))
    else
      Success(Request(NoWindow, node))
  }

  /** `":" + text` after the base string, or nothing. */
  function Tail(o: Option<string>): string
  {
    match o
    case None => ""
    case Some(t) => ":" + t
  }

  function WindowString(w: Window): string
  {
    match w
    case Logger(s, e) => "LOGGER:" + IntToString(s) + ":" + IntToString(e)
    case LoggerDuration(ms) => "LOGGERDURATION:" + IntToString(ms)
    case NoWindow => ""
  }

  /** The request string sent to the DPM service. */
  function Render(r: Request): string
  {
    WindowString(r.window) + Tail(r.node)
  }

  /** `hdf_code`'s request string, or the reason it stops before building one. */
  function BuildRequestString<T>(a: Args<T>, now: T, toUtcMs: T -> int): (r: Result<string, Error>)
    ensures Truthy(a.duration) && (a.startDate.Some? || a.endDate.Some?) ==>
      r == Failure(ConflictingTimeSpec)
    ensures !Truthy(a.duration) && a.startDate.None? && a.endDate.Some? ==>
      r == Failure(MissingStartTime)
    ensures !Truthy(a.duration) && a.startDate.Some? && a.endDate.Some? ==>
      r == Success("LOGGER:" + IntToString(toUtcMs(a.startDate.value)) + ":" +
                   IntToString(toUtcMs(a.endDate.value)) + NodeSuffix(a.node))
    ensures !Truthy(a.duration) && a.startDate.Some? && a.endDate.None? ==>
      r == Success("LOGGER:" + IntToString(toUtcMs(a.startDate.value)) + ":" +
                   IntToString(toUtcMs(now)) + NodeSuffix(a.node))
    ensures Truthy(a.duration) && a.startDate.None? && a.endDate.None? ==>
      r == match ParseInt(a.duration.value)
           case None => Failure(InvalidDuration(a.duration.value))
           case Some(seconds) => Success("LOGGERDURATION:" + IntToString(seconds * 1000) + NodeSuffix(a.node))
    ensures !Truthy(a.duration) && a.startDate.None? && a.endDate.None? ==>
      r == Success(NodeSuffix(a.node))
  {
    match Decide(a, now, toUtcMs)
    case Failure(e) => Failure(e)
    case Success(req) =>
      assert "" + Tail(req.node) == Tail(req.node);
      Success(Render(req))
  }

  /** The suffix line 139 appends: `":" + node` when the node is a non-empty string. */
  function NodeSuffix(node: Option<string>): string
  {
    if Truthy(node) then ":" + node.value else ""
  }

  /** Splits at the first colon: the text before it, and the text after it if there is one. */
  function SplitColon(s: string): (string, Option<string>)
  {
    if s == [] then ("", None)
    else if s[0] == ':' then ("", Some(s[1..]))
    else
      var (h, t) := SplitColon(s[1..]);
      ([s[0]] + h, t)
  }

  /** Reads a request string back into the request it encodes. */
  function Parse(s: string): Option<Request>
  {
    if |s| >= 15 && s[..15] == "LOGGERDURATION:" then ParseDuration(s[15..])
    else if |s| >= 7 && s[..7] == "LOGGER:" then ParseLogger(s[7..])
    else if s == "" then Some(Request(NoWindow, None))
    else if s[0] == ':' then Some(Request(NoWindow, Some(s[1..])))
    else None
  }

  /** What follows `LOGGERDURATION:`: the milliseconds, then the optional node. */
  function ParseDuration(s: string): Option<Request>
  {
    var (h, node) := SplitColon(s);
    match ParseInt(h)
    case None => None
    case Some(ms) => Some(Request(LoggerDuration(ms), node))
  }

  /** What follows `LOGGER:`: start and end milliseconds, then the optional node. */
  function ParseLogger(s: string): Option<Request>
  {
    var (h1, rest) := SplitColon(s);
    if rest.None? then None
    else
      var (h2, node) := SplitColon(rest.value);
      match (ParseInt(h1), ParseInt(h2))
      case (Some(startMs), Some(endMs)) => Some(Request(Logger(startMs, endMs), node))
      case _ => None
  }

  predicate NoColon(s: string)
  {
    forall i :: 0 <= i < |s| ==> s[i] != ':'
  }

  lemma {:induction false} SplitColonTail(h: string, o: Option<string>)
    requires NoColon(h)
    ensures SplitColon(h + Tail(o)) == (h, o)
  {
    if h == [] {
      assert h + Tail(o) == Tail(o);
      if o.Some? {
        assert Tail(o)[1..] == o.value;
      }
    } else {
      var s := h + Tail(o);
      assert s[0] == h[0] && h[0] != ':';
      assert s[1..] == h[1..] + Tail(o);
      SplitColonTail(h[1..], o);
      assert [h[0]] + h[1..] == h;
    }
  }

  lemma IntToStringNoColon(i: int)
    ensures NoColon(IntToString(i))
  {
    var d := NatToString(if i < 0 then -i else i);
    assert AllDigits(d);
  }

  lemma ParseLoggerFields(a: int, b: int, node: Option<string>)
    ensures ParseLogger(IntToString(a) + Tail(Some(IntToString(b) + Tail(node)))) == Some(Request(Logger(a, b), node))
  {
    IntToStringNoColon(a);
    IntToStringNoColon(b);
    SplitColonTail(IntToString(a), Some(IntToString(b) + Tail(node)));
    SplitColonTail(IntToString(b), node);
    ParseIntOfIntToString(a);
    ParseIntOfIntToString(b);
  }

  lemma RegroupLogger(x: string, y: string, t: string)
    ensures "LOGGER:" + x + ":" + y + t == "LOGGER:" + (x + (":" + (y + t)))
  {
  }

  lemma LoggerRoundTrip(a: int, b: int, node: Option<string>)
    ensures Parse(Render(Request(Logger(a, b), node))) == Some(Request(Logger(a, b), node))
  {
    var s := Render(Request(Logger(a, b), node));
    var sa, sb, t := IntToString(a), IntToString(b), Tail(node);
    var fields := sa + Tail(Some(sb + t));
    assert fields == sa + (":" + (sb + t));
    RegroupLogger(sa, sb, t);
    assert s == "LOGGER:" + fields;
    assert s[..7] == "LOGGER:" && s[7..] == fields;
    assert !(|s| >= 15 && s[..15] == "LOGGERDURATION:") by {
      if |s| >= 15 { assert s[..15][6] == ':'; }
    }
    ParseLoggerFields(a, b, node);
  }

  lemma DurationRoundTrip(ms: int, node: Option<string>)
    ensures Parse(Render(Request(LoggerDuration(ms), node))) == Some(Request(LoggerDuration(ms), node))
  {
    var s := Render(Request(LoggerDuration(ms), node));
    var sm := IntToString(ms);
    assert s == "LOGGERDURATION:" + (sm + Tail(node));
    assert s[..15] == "LOGGERDURATION:";
    IntToStringNoColon(ms);
    SplitColonTail(sm, node);
    ParseIntOfIntToString(ms);
  }

  lemma NoWindowRoundTrip(node: Option<string>)
    ensures Parse(Render(Request(NoWindow, node))) == Some(Request(NoWindow, node))
  {
    var s := Render(Request(NoWindow, node));
    assert s == Tail(node);
    if node.Some? {
      assert s[0] == ':' && s[1..] == node.value;
      assert !(|s| >= 7 && s[..7] == "LOGGER:") by {
        if |s| >= 7 { assert s[..7][0] == ':'; }
      }
      assert !(|s| >= 15 && s[..15] == "LOGGERDURATION:") by {
        if |s| >= 15 { assert s[..15][0] == ':'; }
      }
    }
  }

  /** Reading a rendered request gives the request back. */
  lemma RenderRoundTrip(r: Request)
    ensures Parse(Render(r)) == Some(r)
  {
    match r.window
    case Logger(a, b) => LoggerRoundTrip(a, b, r.node);
    case LoggerDuration(ms) => DurationRoundTrip(ms, r.node);
    case NoWindow => NoWindowRoundTrip(r.node);
  }

  /** Two requests with the same string are the same request. */
  lemma RenderInjective(r1: Request, r2: Request)
    requires Render(r1) == Render(r2)
    ensures r1 == r2
  {
    RenderRoundTrip(r1);
    RenderRoundTrip(r2);
  }

  /** A built string always reads back as the request `Decide` chose: the window with
      the converted dates (or duration times 1000) and the node when it is non-empty. */
  lemma BuildRequestStringDecodes<T>(a: Args<T>, now: T, toUtcMs: T -> int)
    requires BuildRequestString(a, now, toUtcMs).Success?
    ensures Decide(a, now, toUtcMs).Success?
    ensures Parse(BuildRequestString(a, now, toUtcMs).value) == Some(Decide(a, now, toUtcMs).value)
    ensures Decide(a, now, toUtcMs).value.node == (if Truthy(a.node) then a.node else None)
  {
    RenderRoundTrip(Decide(a, now, toUtcMs).value);
  }
}
