/**
 * Response frames of the sandbox runner: one line of ASCII JSON, shortened by binary search
 * when the captured output makes it too long.
 */
module SandboxFrame {
  import opened Strings

  const MAX_FRAME_BYTES: nat := 1_100_000

  // ----- JSON text restricted to ASCII -----

  function HexDigit(d: nat): char
    requires d < 16
  {
    "0123456789abcdef"[d]
  }

  function Hex4(n: nat): string
    requires n < 0x10000
  {
    [HexDigit(n / 4096), HexDigit(n / 256 % 16), HexDigit(n / 16 % 16), HexDigit(n % 16)]
  }

  function Unicode(n: nat): string
    requires n < 0x110000
  {
    if n < 0x10000 then "\\u" + Hex4(n)
    else "\\u" + Hex4(0xD800 + (n - 0x10000) / 1024) + "\\u" + Hex4(0xDC00 + (n - 0x10000) % 1024)
  }

  function Escape(c: char): (s: string)
    ensures |s| >= 1
  {
    if c == '\"' then "\\\""
    else if c == '\\' then "\\\\"
    else if c == '\n' then "\\n"
    else if c == '\r' then "\\r"
    else if c == '\t' then "\\t"
    else if c as int == 8 then "\\b"
    else if c as int == 12 then "\\f"
    else if ' ' <= c <= '~' then [c]
    else Unicode(c as int)
  }

  function Escaped(s: string): string {
    if s == "" then "" else Escape(s[0]) + Escaped(s[1..])
  }

  function IntText(n: int): string {
    if n < 0 then "-" + Decimal(-n) else Decimal(n)
  }

  function BoolText(b: bool): string { if b then "true" else "false" }

  datatype Response =
    | Output(requestId: string, stdout: string, stderr: string, exitCode: int, timedOut: bool, truncated: bool)
    | Health
    | Error(code: string, requestId: string)

  function OutputText(id: string, out: string, err: string, exit: string, timedOut: string, truncated: string): string {
    "{\"version\":1,\"status\":\"ok\",\"request_id\":\"" + id + "\",\"stdout\":\"" + out
    + "\",\"stderr\":\"" + err + "\",\"exit_code\":" + exit + ",\"timed_out\":" + timedOut
    + ",\"truncated\":" + truncated + ",\"isolation\":\"runner-container\"}"
  }

  function ErrorText(id: string, code: string): string {
    "{\"version\":1,\"status\":\"error\",\"request_id\":\"" + id + "\",\"error\":\"" + code + "\"}"
  }

  function Json(r: Response): string {
    match r
    case Output(id, out, err, exit, timedOut, truncated) =>
      OutputText(Escaped(id), Escaped(out), Escaped(err), IntText(exit), BoolText(timedOut), BoolText(truncated))
    case Health => "{\"version\":1,\"status\":\"ok\"}"
    case Error(code, id) => ErrorText(Escaped(id), Escaped(code))
  }

  function Frame(r: Response): string {
    Json(r) + "\n"
  }

  function UpTo(s: string, n: nat): string { s[..if n <= |s| then n else |s|] }

  /** The response with only the first keep characters of stdout followed by stderr. */
  function Kept(r: Response, keep: nat): Response
    requires r.Output?
  {
    var n := if keep <= |r.stdout| then keep else |r.stdout|;
    r.(stdout := UpTo(r.stdout, n), stderr := UpTo(r.stderr, keep - n), truncated := true)
  }

  ghost predicate Fits(r: Response, keep: nat)
    requires r.Output?
  {
    |Frame(Kept(r, keep))| <= MAX_FRAME_BYTES
  }

  /** What is kept is a prefix of stdout followed by stderr, and stderr is kept only after all of stdout. */
  lemma KeptMeans(r: Response, k: nat)
    requires r.Output? && k <= |r.stdout| + |r.stderr|
    ensures var c := Kept(r, k);
      && c.stdout <= r.stdout && c.stderr <= r.stderr
      && c.stdout + c.stderr == (r.stdout + r.stderr)[..k] && (c.stderr != "" ==> c.stdout == r.stdout)
      && c == r.(stdout := c.stdout, stderr := c.stderr, truncated := true)
  {
  }

  // ----- Keeping more never makes the frame shorter -----

  lemma {:induction false} EscapedAppend(a: string, b: string)
    ensures Escaped(a + b) == Escaped(a) + Escaped(b)
  {
    if a == "" {
      assert a + b == b;
    } else {
      assert (a + b)[1..] == a[1..] + b;
      EscapedAppend(a[1..], b);
    }
  }

  lemma EscapedPrefix(s: string, m: nat, n: nat)
    requires m <= n <= |s|
    ensures |Escaped(s[..m])| <= |Escaped(s[..n])|
  {
    assert s[..n] == s[..m] + s[m..n];
    EscapedAppend(s[..m], s[m..n]);
  }

  /** Everything in an output frame except the two captured texts. */
  function Overhead(r: Response): nat
    requires r.Output?
  {
    |Frame(r.(stdout := "", stderr := ""))|
  }

  lemma FrameLength(r: Response)
    requires r.Output?
    ensures |Frame(r)| == Overhead(r) + |Escaped(r.stdout)| + |Escaped(r.stderr)|
  {
  }

  lemma FrameGrows(r: Response, k: nat, m: nat)
    requires r.Output? && k <= m
    ensures |Frame(Kept(r, k))| <= |Frame(Kept(r, m))|
  {
    var a, b := Kept(r, k), Kept(r, m);
    FrameLength(a);
    FrameLength(b);
    EscapedPrefix(r.stdout, |a.stdout|, |b.stdout|);
    EscapedPrefix(r.stderr, |a.stderr|, |b.stderr|);
  }

  // ----- The encoder -----

  /** Keeping k characters fits and keeping any more does not. */
  ghost predicate LongestFit(r: Response, k: nat) {
    && r.Output? && k <= |r.stdout| + |r.stderr| && Fits(r, k)
    && forall m :: k < m <= |r.stdout| + |r.stderr| ==> !Fits(r, m)
  }

  /** The search on its own: frames(keep) is the frame that keeps so many characters. */
  method Search(frames: nat -> string, total: nat) returns (frame: string, ghost kept: nat)
    requires forall i: nat, j: nat :: i <= j ==> |frames(i)| <= |frames(j)|
    ensures kept <= total && frame == frames(kept)
    ensures |frames(0)| > MAX_FRAME_BYTES ==> kept == 0
    ensures |frames(0)| <= MAX_FRAME_BYTES ==> |frame| <= MAX_FRAME_BYTES
    ensures forall m: nat :: kept < m <= total ==> |frames(m)| > MAX_FRAME_BYTES
  {
    var low, high := 0, total;
    frame := frames(0);
    kept := 0;
    while low <= high
      invariant 0 <= low <= high + 1 <= total + 1
      invariant kept == if low == 0 then 0 else low - 1
      invariant frame == frames(kept)
      invariant low > 0 ==> |frame| <= MAX_FRAME_BYTES
      invariant forall m: nat :: high < m <= total ==> |frames(m)| > MAX_FRAME_BYTES
    {
      var keep := (low + high) / 2;
      var candidate := frames(keep);
      if |candidate| <= MAX_FRAME_BYTES {
        frame, kept := candidate, keep;
        low := keep + 1;
      } else {
        high := keep - 1;
      }
    }
  }

  method EncodeResponse(r: Response) returns (frame: string)
    ensures |Frame(r)| <= MAX_FRAME_BYTES ==> frame == Frame(r)
    ensures |Frame(r)| > MAX_FRAME_BYTES && !r.Output? ==> frame == Frame(Error("response_too_large", ""))
    ensures |Frame(r)| > MAX_FRAME_BYTES && r.Output? ==>
      if Fits(r, 0) then exists k :: LongestFit(r, k) && frame == Frame(Kept(r, k))
      else frame == Frame(Kept(r, 0))
  {
    frame := Frame(r);
    if |frame| <= MAX_FRAME_BYTES {
      return;
    }
    if !r.Output? {
      return Frame(Error("response_too_large", ""));
    }
    var frames := (keep: nat) => Frame(Kept(r, keep));
    forall i: nat, j: nat | i <= j ensures |frames(i)| <= |frames(j)| {
      FrameGrows(r, i, j);
    }
    ghost var kept;
    frame, kept := Search(frames, |r.stdout| + |r.stderr|);
    Longest(r, frames, frame, kept);
  }

  lemma Longest(r: Response, frames: nat -> string, frame: string, kept: nat)
    requires r.Output? && kept <= |r.stdout| + |r.stderr|
    requires forall k :: frames(k) == Frame(Kept(r, k))
    requires frame == frames(kept) && (|frames(0)| <= MAX_FRAME_BYTES ==> |frame| <= MAX_FRAME_BYTES)
    requires forall m: nat :: kept < m <= |r.stdout| + |r.stderr| ==> |frames(m)| > MAX_FRAME_BYTES
    ensures frame == Frame(Kept(r, kept))
    ensures Fits(r, 0) ==> LongestFit(r, kept)
  {
    if Fits(r, 0) {
      forall m | kept < m <= |r.stdout| + |r.stderr| ensures !Fits(r, m) {
        assert |frames(m)| > MAX_FRAME_BYTES;
      }
    }
  }

  lemma {:induction false} EscapedHex(s: string)
    requires forall i :: 0 <= i < |s| ==> HexChar(s[i])
    ensures Escaped(s) == s
  {
    if s != "" {
      EscapedHex(s[1..]);
      assert s == [s[0]] + s[1..];
    }
  }

  lemma IntTextShort(n: int)
    requires -1000 < n < 1000
    ensures |IntText(n)| <= 4
  {
    var m := if n < 0 then -n else n;
    assert |Decimal(m / 100)| == 1;
    if m >= 10 { assert |Decimal(m / 10)| <= 2; }
  }

  /** The responses built after an execution always fit once their output is dropped. */
  lemma EmptyOutputFits(r: Response)
    requires r.Output? && |r.requestId| == 32 && forall i :: 0 <= i < 32 ==> HexChar(r.requestId[i])
    requires -1000 < r.exitCode < 1000
    ensures Fits(r, 0)
  {
    EscapedHex(r.requestId);
    IntTextShort(r.exitCode);
  }

  // ----- What a reader of the frame gets back -----

  function DigitOf(c: char): int {
    if '0' <= c <= '9' then c as int - '0' as int else if 'a' <= c <= 'f' then c as int - 'a' as int + 10 else -1
  }

  function Code(t: string): int
    requires |t| >= 4
  {
    4096 * DigitOf(t[0]) + 256 * DigitOf(t[1]) + 16 * DigitOf(t[2]) + DigitOf(t[3])
  }

  ghost predicate IsScalar(n: int) { 0 <= n < 0xD800 || 0xE000 <= n < 0x110000 }

  /** The first character that escaped text stands for, and how much text that takes. */
  ghost function ReadOne(t: string): (r: (char, nat))
    requires t != ""
    ensures 1 <= r.1
  {
    if t[0] != '\\' || |t| < 2 then (t[0], 1)
    else if t[1] == 'n' then ('\n', 2)
    else if t[1] == 'r' then ('\r', 2)
    else if t[1] == 't' then ('\t', 2)
    else if t[1] == 'b' then (8 as char, 2)
    else if t[1] == 'f' then (12 as char, 2)
    else if t[1] != 'u' || |t| < 6 then (t[1], 2)
    else
      var high := Code(t[2..6]);
      if IsScalar(high) then (high as char, 6)
      else if |t| < 12 then (t[1], 6)
      else
        var full := 0x10000 + (high - 0xD800) * 1024 + (Code(t[8..12]) - 0xDC00);
        if IsScalar(full) then (full as char, 12) else (t[1], 12)
  }

  ghost function ReadAll(t: string): string
    decreases |t|
  {
    if t == "" then ""
    else
      var (c, n) := ReadOne(t);
      [c] + if n <= |t| then ReadAll(t[n..]) else ""
  }

  lemma HexReads(d: nat)
    requires d < 16
    ensures DigitOf(HexDigit(d)) == d
  {
  }

  lemma Quarters(n: nat)
    requires n < 0x10000
    ensures n == 4096 * (n / 4096) + 256 * (n / 256 % 16) + 16 * (n / 16 % 16) + n % 16
  {
    var a, b := n / 16, n / 256;
    assert n == 16 * a + n % 16;
    assert b == a / 16 && a == 16 * b + a % 16;
    assert n / 4096 == b / 16 && b == 16 * (n / 4096) + b % 16;
  }

  lemma CodeReads(n: nat, t: string)
    requires n < 0x10000
    ensures |Hex4(n)| == 4 && Code(Hex4(n)) == n && (Hex4(n) + t)[..4] == Hex4(n)
  {
    Quarters(n);
    HexReads(n / 4096);
    HexReads(n / 256 % 16);
    HexReads(n / 16 % 16);
    HexReads(n % 16);
    var h := Hex4(n);
    assert h[0] == HexDigit(n / 4096) && h[1] == HexDigit(n / 256 % 16) && h[2] == HexDigit(n / 16 % 16);
    assert h[3] == HexDigit(n % 16);
  }

  lemma PairReads(n: nat, t: string)
    requires 0x10000 <= n < 0x110000
    ensures var s := Unicode(n) + t;
      && |Unicode(n)| == 12 && s[2..6] == Hex4(0xD800 + (n - 0x10000) / 1024) && s[8..12] == Hex4(0xDC00 + (n - 0x10000) % 1024)
      && s[0] == '\\' && s[1] == 'u'
  {
  }

  /** Reading one short escape, or one pair of escapes, from the values of its digits. */
  lemma ShortReads(s: string, high: int)
    requires |s| >= 6 && s[0] == '\\' && s[1] == 'u' && Code(s[2..6]) == high && IsScalar(high)
    ensures ReadOne(s) == (high as char, 6)
  {
  }

  lemma PairRead(s: string, high: int, low: int, full: int)
    requires |s| >= 12 && s[0] == '\\' && s[1] == 'u' && Code(s[2..6]) == high && Code(s[8..12]) == low
    requires 0xD800 <= high < 0xDC00 && full == 0x10000 + (high - 0xD800) * 1024 + (low - 0xDC00) && IsScalar(full)
    ensures ReadOne(s) == (full as char, 12)
  {
  }

  lemma UnicodeReads(c: char, t: string)
    ensures ReadOne(Unicode(c as int) + t) == (c, |Unicode(c as int)|)
  {
    var n := c as int;
    var s := Unicode(n) + t;
    if n < 0x10000 {
      CodeReads(n, t);
      assert s[2..6] == Hex4(n);
      ShortReads(s, n);
    } else {
      WideReads(n, t);
    }
  }

  lemma Surrogates(n: nat) returns (high: nat, low: nat)
    requires 0x10000 <= n < 0x110000
    ensures high == 0xD800 + (n - 0x10000) / 1024 && low == 0xDC00 + (n - 0x10000) % 1024
    ensures 0xD800 <= high < 0xDC00 <= low < 0xE000
    ensures n == 0x10000 + (high - 0xD800) * 1024 + (low - 0xDC00)
  {
    high, low := 0xD800 + (n - 0x10000) / 1024, 0xDC00 + (n - 0x10000) % 1024;
  }

  lemma WideReads(n: nat, t: string)
    requires 0x10000 <= n < 0x110000
    ensures |Unicode(n)| == 12 && ReadOne(Unicode(n) + t) == (n as char, 12)
  {
    var high, low := Surrogates(n);
    CodeReads(high, t);
    CodeReads(low, t);
    PairReads(n, t);
    PairRead(Unicode(n) + t, high, low, n);
  }

  lemma EscapeReads(c: char, t: string)
    ensures ReadOne(Escape(c) + t) == (c, |Escape(c)|)
  {
    if c != '\"' && c != '\\' && c != '\n' && c != '\r' && c != '\t' && c as int != 8 && c as int != 12 && !(' ' <= c <= '~') {
      UnicodeReads(c, t);
    }
  }

  /** Unescaping the text in a frame gives back the captured text. */
  lemma {:induction false} EscapedReads(s: string)
    ensures ReadAll(Escaped(s)) == s
  {
    if s != "" {
      var e, rest := Escape(s[0]), Escaped(s[1..]);
      EscapeReads(s[0], rest);
      EscapedReads(s[1..]);
      assert (e + rest)[|e|..] == rest;
      assert s == [s[0]] + s[1..];
    }
  }

  ghost predicate Printable(s: string) {
    forall i :: 0 <= i < |s| ==> ' ' <= s[i] <= '~'
  }

  lemma HexDigitPrints(d: nat)
    requires d < 16
    ensures ' ' <= HexDigit(d) <= '~'
  {
  }

  lemma HexPrints(n: nat)
    requires n < 0x10000
    ensures Printable(Hex4(n))
  {
    HexDigitPrints(n / 4096);
    HexDigitPrints(n / 256 % 16);
    HexDigitPrints(n / 16 % 16);
    HexDigitPrints(n % 16);
  }

  lemma UnicodePrints(n: nat)
    requires n < 0x110000
    ensures Printable(Unicode(n))
  {
    if n < 0x10000 {
      HexPrints(n);
    } else {
      HexPrints(0xD800 + (n - 0x10000) / 1024);
      HexPrints(0xDC00 + (n - 0x10000) % 1024);
    }
  }

  lemma EscapePrints(c: char)
    ensures Printable(Escape(c))
  {
    if Escape(c) == Unicode(c as int) { UnicodePrints(c as int); }
  }

  lemma {:induction false} EscapedPrints(s: string)
    ensures Printable(Escaped(s))
  {
    if s != "" {
      EscapePrints(s[0]);
      EscapedPrints(s[1..]);
    }
  }

  lemma Joined(a: string, b: string)
    requires Printable(a) && Printable(b)
    ensures Printable(a + b)
  {
  }

  lemma OutputPrints(id: string, out: string, err: string, exit: string, timedOut: string, truncated: string)
    requires Printable(id) && Printable(out) && Printable(err) && Printable(exit) && Printable(timedOut) && Printable(truncated)
    ensures Printable(OutputText(id, out, err, exit, timedOut, truncated))
  {
    var a := "{\"version\":1,\"status\":\"ok\",\"request_id\":\"" + id;
    Joined("{\"version\":1,\"status\":\"ok\",\"request_id\":\"", id);
    var b := a + "\",\"stdout\":\"" + out;
    Joined(a, "\",\"stdout\":\"");
    Joined(a + "\",\"stdout\":\"", out);
    var c := b + "\",\"stderr\":\"" + err;
    Joined(b, "\",\"stderr\":\"");
    Joined(b + "\",\"stderr\":\"", err);
    var d := c + "\",\"exit_code\":" + exit;
    Joined(c, "\",\"exit_code\":");
    Joined(c + "\",\"exit_code\":", exit);
    var e := d + ",\"timed_out\":" + timedOut;
    Joined(d, ",\"timed_out\":");
    Joined(d + ",\"timed_out\":", timedOut);
    var f := e + ",\"truncated\":" + truncated;
    Joined(e, ",\"truncated\":");
    Joined(e + ",\"truncated\":", truncated);
    Joined(f, ",\"isolation\":\"runner-container\"}");
  }

  lemma ErrorPrints(id: string, code: string)
    requires Printable(id) && Printable(code)
    ensures Printable(ErrorText(id, code))
  {
    var a := "{\"version\":1,\"status\":\"error\",\"request_id\":\"" + id;
    Joined("{\"version\":1,\"status\":\"error\",\"request_id\":\"", id);
    Joined(a, "\",\"error\":\"");
    Joined(a + "\",\"error\":\"", code);
    Joined(a + "\",\"error\":\"" + code, "\"}");
  }

  lemma NumbersPrint(n: int)
    ensures Printable(IntText(n))
  {
  }

  ghost predicate IsLine(s: string) {
    s != "" && s[|s| - 1] == '\n' && Printable(s[..|s| - 1])
  }

  lemma JsonPrints(r: Response)
    ensures Printable(Json(r))
  {
    match r
    case Output(id, out, err, exit, timedOut, truncated) =>
      EscapedPrints(id);
      EscapedPrints(out);
      EscapedPrints(err);
      NumbersPrint(exit);
      FlagsPrint(timedOut);
      FlagsPrint(truncated);
      OutputPrints(Escaped(id), Escaped(out), Escaped(err), IntText(exit), BoolText(timedOut), BoolText(truncated));
    case Health =>
    case Error(code, id) =>
      EscapedPrints(id);
      EscapedPrints(code);
      ErrorPrints(Escaped(id), Escaped(code));
  }

  lemma FlagsPrint(b: bool)
    ensures Printable(BoolText(b))
  {
  }

  /** Every frame is one line of printable ASCII, whatever the output holds. */
  lemma FrameIsOneLine(r: Response)
    ensures IsLine(Frame(r))
  {
    JsonPrints(r);
    assert Frame(r)[..|Frame(r)| - 1] == Json(r);
  }
}
