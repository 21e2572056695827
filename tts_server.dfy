/**
 * The message decode of the synthesis server in tts.py: the nonce is `int` of the first
 * space-separated token, the text is the message from `len(str(nonce)) + 1` on, and the
 * audio is written to "tts_output/<str(nonce)>.wav".
 */
module TtsServer {
  import opened Options
  import opened Text
  import Tts

  const OutputDir: string := "tts_output"

  /** The ASCII white space that `int()` skips around a number. */
  predicate IsSpace(c: char)
  {
    c == ' ' || '\t' <= c <= '\r'
  }

  function StripStart(s: string): (r: string)
    ensures |r| <= |s| && r == s[|s| - |r|..]
    ensures r == [] || !IsSpace(r[0])
    ensures forall i :: 0 <= i < |s| - |r| ==> IsSpace(s[i])
  {
    if s != [] && IsSpace(s[0]) then
      var r := StripStart(s[1..]);
      assert forall i :: 1 <= i < |s| - |r| ==> s[i] == s[1..][i - 1];
      r
    else s
  }

  function StripEnd(s: string): (r: string)
    ensures |r| <= |s| && r == s[..|r|]
    ensures r == [] || !IsSpace(r[|r| - 1])
    ensures forall i :: |r| <= i < |s| ==> IsSpace(s[i])
  {
    if s != [] && IsSpace(s[|s| - 1]) then
      var r := StripEnd(s[..|s| - 1]);
      assert forall i :: |r| <= i < |s| - 1 ==> s[i] == s[..|s| - 1][i];
      r
    else s
  }

  /** Digits, with single underscores allowed between two digits ("1_000"). */
  predicate Grouped(s: string)
    decreases |s|
  {
    && |s| >= 1 && IsDigit(s[0])
    && (|s| == 1 || (if s[1] == '_' then Grouped(s[2..]) else Grouped(s[1..])))
  }

  function DropUnderscores(s: string): (r: string)
    requires Grouped(s)
    ensures AllDigits(r) && |r| >= 1
    decreases |s|
  {
    if |s| == 1 then s
    else if s[1] == '_' then [s[0]] + DropUnderscores(s[2..])
    else [s[0]] + DropUnderscores(s[1..])
  }

  /** The digits of `int` after the sign: None unless they are grouped digits. */
  function Unsigned(u: string): Option<int>
  {
    if Grouped(u) then Some(DecimalValue(DropUnderscores(u))) else None
  }

  /** An optional sign, then the digits. */
  function Signed(t: string): Option<int>
  {
    if |t| > 0 && t[0] == '-' then
      match Unsigned(t[1..])
      case None => None
      case Some(v) => Some(-v)
    else if |t| > 0 && t[0] == '+' then Unsigned(t[1..])
    else Unsigned(t)
  }

  /** `int(token)` in base 10; None is the ValueError that ends the server loop. */
  function PyInt(token: string): Option<int>
  {
    Signed(StripEnd(StripStart(token)))
  }

  /** `str(n)` */
  function PyStr(n: int): (s: string)
    ensures n >= 0 ==> Canonical(s)
    ensures n < 0 ==> |s| >= 2 && s[0] == '-' && Canonical(s[1..])
    ensures n >= 0 ==> DecimalValue(s) == n
    ensures n < 0 ==> DecimalValue(s[1..]) == -n
  {
    if n < 0 then
      DecimalRoundTrip(-n);
      assert ("-" + Decimal(-n))[1..] == Decimal(-n);
      "-" + Decimal(-n)
    else
      DecimalRoundTrip(n);
      Decimal(n)
  }

  /** The decoded request, or None when the first token is not an integer. */
  datatype Request = Request(nonce: int, text: string)

  /** Lines 41-42 of tts.py. */
  function Decode(message: string): (r: Option<Request>)
    ensures r.None? <==> PyInt(message[..IndexOf(message, ' ')]).None?
    ensures r.Some? ==> PyInt(message[..IndexOf(message, ' ')]) == Some(r.value.nonce)
    ensures r.Some? ==> EndsWith(message, r.value.text)
  {
    var token := message[..IndexOf(message, ' ')];
    match PyInt(token)
    case None => None
    case Some(n) =>
      var start := |PyStr(n)| + 1;
      Some(Request(n, if start <= |message| then message[start..] else ""))
  }

  /** `f"{output_dir}/{nonce}.wav"` */
  function OutputPath(nonce: int): string
  {
    OutputDir + "/" + Tts.AudioFileName(PyStr(nonce))
  }

  lemma {:induction false} GroupedDigits(s: string)
    requires AllDigits(s) && |s| >= 1
    ensures Grouped(s) && DropUnderscores(s) == s
  {
    if |s| > 1 {
      GroupedDigits(s[1..]);
      assert s == [s[0]] + s[1..];
    }
  }

  /** `int(str(n)) == n` for the nonces tts.ts sends. */
  lemma PyIntDecimal(n: nat)
    ensures PyInt(Decimal(n)) == Some(n)
  {
    PyIntDigits(Decimal(n));
    DecimalRoundTrip(n);
  }

  /** `int` of a run of digits is its decimal value, leading zeros included. */
  lemma PyIntDigits(d: string)
    requires AllDigits(d) && |d| >= 1
    ensures PyInt(d) == Some(DecimalValue(d))
  {
    StripDigits(d);
    PyIntStripped(d);
    UnsignedDigits(d);
    UnsignedWithoutSign(d);
  }

  lemma PyIntStripped(d: string)
    requires StripStart(d) == d && StripEnd(d) == d
    ensures PyInt(d) == Signed(d)
  {
  }

  lemma UnsignedDigits(d: string)
    requires AllDigits(d) && |d| >= 1
    ensures Unsigned(d) == Some(DecimalValue(d))
  {
    GroupedDigits(d);
  }

  lemma UnsignedWithoutSign(t: string)
    requires |t| > 0 && t[0] != '-' && t[0] != '+'
    ensures Signed(t) == Unsigned(t)
  {
  }

  /** A run of digits has no white space to strip. */
  lemma StripDigits(d: string)
    requires AllDigits(d) && |d| >= 1
    ensures StripStart(d) == d && StripEnd(d) == d
  {
    assert !IsSpace(d[0]) && !IsSpace(d[|d| - 1]);
  }

  /** Leading white space goes, up to the first character that is not white space. */
  lemma {:induction false} StripStartSpaces(w: string, t: string)
    requires forall i :: 0 <= i < |w| ==> IsSpace(w[i])
    requires t == [] || !IsSpace(t[0])
    ensures StripStart(w + t) == t
    decreases |w|
  {
    if w == [] {
      assert w + t == t;
    } else {
      assert (w + t)[1..] == w[1..] + t;
      StripStartSpaces(w[1..], t);
    }
  }

  /** Trailing white space goes, back to the last character that is not white space. */
  lemma {:induction false} StripEndSpaces(t: string, w: string)
    requires forall i :: 0 <= i < |w| ==> IsSpace(w[i])
    requires t == [] || !IsSpace(t[|t| - 1])
    ensures StripEnd(t + w) == t
    decreases |w|
  {
    if w == [] {
      assert t + w == t;
    } else {
      assert (t + w)[..|t + w| - 1] == t + w[..|w| - 1];
      StripEndSpaces(t, w[..|w| - 1]);
    }
  }

  /** `int` skips white space on both sides of the number. */
  lemma PyIntPadded(w1: string, n: nat, w2: string)
    requires forall i :: 0 <= i < |w1| ==> IsSpace(w1[i])
    requires forall i :: 0 <= i < |w2| ==> IsSpace(w2[i])
    ensures PyInt(w1 + Decimal(n) + w2) == Some(n)
  {
    var d := Decimal(n);
    assert !IsSpace(d[0]) && !IsSpace(d[|d| - 1]);
    PaddedStrips(w1, d, w2);
    UnsignedWithoutSign(d);
    UnsignedDigits(d);
    DecimalRoundTrip(n);
  }

  /** Stripping white space on both sides leaves exactly the padded word. */
  lemma PaddedStrips(w1: string, d: string, w2: string)
    requires forall i :: 0 <= i < |w1| ==> IsSpace(w1[i])
    requires forall i :: 0 <= i < |w2| ==> IsSpace(w2[i])
    requires |d| >= 1 && !IsSpace(d[0]) && !IsSpace(d[|d| - 1])
    ensures StripEnd(StripStart(w1 + d + w2)) == d
  {
    assert w1 + d + w2 == w1 + (d + w2);
    assert (d + w2)[0] == d[0];
    StripStartSpaces(w1, d + w2);
    StripEndSpaces(d, w2);
  }

  lemma PyIntPyStr(n: int)
    ensures PyInt(PyStr(n)) == Some(n)
  {
    if n >= 0 {
      PyIntDecimal(n);
      assert PyStr(n) == Decimal(n);
    } else {
      PyIntPyStrNegative(n);
    }
  }

  lemma PyIntPyStrNegative(n: int)
    requires n < 0
    ensures PyInt(PyStr(n)) == Some(n)
  {
    var s := PyStr(n);
    PyIntNegative(s);
    var v: int := -(DecimalValue(s[1..]) as int);
    assert PyInt(s) == Some(v);
  }

  /** A minus sign before digits negates their value. */
  lemma PyIntNegative(s: string)
    requires |s| >= 2 && s[0] == '-' && AllDigits(s[1..])
    ensures PyInt(s) == Some(-(DecimalValue(s[1..]) as int))
  {
    UnsignedDigits(s[1..]);
    SignedMinus(s);
    StripBare(s);
    PyIntStripped(s);
  }

  lemma SignedMinus(t: string)
    requires |t| > 0 && t[0] == '-' && Unsigned(t[1..]).Some?
    ensures Signed(t) == Some(-Unsigned(t[1..]).value)
  {
  }

  /** A string that starts and ends with something other than white space is not stripped. */
  lemma StripBare(s: string)
    requires |s| >= 1 && !IsSpace(s[0]) && !IsSpace(s[|s| - 1])
    ensures StripStart(s) == s && StripEnd(s) == s
  {
  }

  /** What playText sends for nonce n decodes to n and the exact text. */
  lemma WireRoundTrip(n: nat, text: string)
    ensures Decode(Tts.WireMessage(n, text)) == Some(Request(n, text))
  {
    var m := Tts.WireMessage(n, text);
    PyIntDecimal(n);
    assert m[..IndexOf(m, ' ')] == Decimal(n);
  }

  /** The file written for that message is the one the watcher maps back to n. */
  lemma OutputPathNamesNonce(n: nat, text: string)
    ensures Decode(Tts.WireMessage(n, text)).Some?
    ensures var path := OutputPath(Decode(Tts.WireMessage(n, text)).value.nonce);
      && path == Tts.OutputDir + "/" + Tts.AudioFileName(Decimal(n))
      && Tts.ParseInt(Tts.Stem(Tts.AudioFileName(Decimal(n)))) == Some(n)
  {
    WireRoundTrip(n, text);
    Tts.AudioFileNameRoundTrip(n);
  }

  /**
   * The slice starts after the first space only because the token is written the way
   * `str` writes the number: a canonical token gives exactly the rest of the message.
   */
  lemma CanonicalTokenKeepsText(token: string, text: string)
    requires Canonical(token)
    ensures Decode(token + " " + text) == Some(Request(DecimalValue(token), text))
  {
    var n := DecimalValue(token);
    CanonicalIsDecimal(token);
    assert token == Decimal(n);
    DigitsLack(token, ' ');
    WireRoundTrip(n, text);
  }

  /** `int` accepts leading zeros. */
  lemma LeadingZerosParse()
    ensures PyInt("007") == Some(7)
  {
    assert DecimalValue("0") == 0 by { assert "0"[..0] == ""; }
    assert DecimalValue("00") == 0 by { assert "00"[..1] == "0"; }
    assert DecimalValue("007") == 7 by { assert "007"[..2] == "00"; }
    PyIntDigits("007");
  }

  /** A token with a leading zero parses, but the slice then cuts into the message. */
  lemma LeadingZeroShiftsText()
    ensures Decode("007 hi") == Some(Request(7, "7 hi"))
  {
    var m := "007 hi";
    IndexOfFirst("007", ' ', "hi");
    assert m == "007" + [' '] + "hi";
    assert m[..3] == "007";
    LeadingZerosParse();
    assert PyStr(7) == "7";
    assert m[2..] == "7 hi";
  }
}
