/**
 * The Node side of the speech-synthesis link in tts.ts.  playText sends "<nonce> <text>"
 * to the synthesis server, remembers the voice connection under that nonce and moves the
 * counter on; the directory watcher, when "<nonce>.wav" appears, parses the nonce back
 * out of the file name, and plays the file on the remembered connection once.
 */
module Tts {
  import opened Options
  import opened Text

  /** `${nonce} ${text}`: what playText writes to the socket. */
  function WireMessage(nonce: nat, text: string): (m: string)
    ensures IndexOf(m, ' ') < |m|
    ensures m[..IndexOf(m, ' ')] == Decimal(nonce)
    ensures m[IndexOf(m, ' ') + 1..] == text
  {
    var d := Decimal(nonce);
    DigitsLack(d, ' ');
    IndexOfFirst(d, ' ', text);
    assert d + " " + text == d + [' '] + text;
    d + " " + text
  }

  /** The WhiteSpace and LineTerminator characters that parseInt skips at the start. */
  predicate IsJsWhiteSpace(c: char)
  {
    c == '\t' || c == '\n' || c == '\U{B}' || c == '\U{C}' || c == '\r' || c == ' ' || c == '\U{A0}'
    || c == '\U{1680}' || ('\U{2000}' <= c <= '\U{200A}') || c == '\U{2028}' || c == '\U{2029}'
    || c == '\U{202F}' || c == '\U{205F}' || c == '\U{3000}' || c == '\U{FEFF}'
  }

  function TrimStart(s: string): (r: string)
    ensures |r| <= |s| && r == s[|s| - |r|..]
    ensures r == [] || !IsJsWhiteSpace(r[0])
    ensures forall i :: 0 <= i < |s| - |r| ==> IsJsWhiteSpace(s[i])
  {
    if s != [] && IsJsWhiteSpace(s[0]) then
      var r := TrimStart(s[1..]);
      assert forall i :: 1 <= i < |s| - |r| ==> s[i] == s[1..][i - 1];
      r
    else s
  }

  predicate IsHexLetter(c: char) { 'a' <= c <= 'f' || 'A' <= c <= 'F' }

  predicate IsRadixDigit(c: char, radix: nat)
  {
    IsDigit(c) || (radix == 16 && IsHexLetter(c))
  }

  function RadixDigitValue(c: char, radix: nat): (v: nat)
    requires IsRadixDigit(c, radix)
    ensures v < radix || radix < 16
  {
    if IsDigit(c) then DigitValue(c) else if 'a' <= c <= 'f' then (c as int) - ('a' as int) + 10
    else (c as int) - ('A' as int) + 10
  }

  /** Length of the longest prefix of `s` made of digits of the radix. */
  function DigitRun(s: string, radix: nat): (n: nat)
    ensures n <= |s|
    ensures forall i :: 0 <= i < n ==> IsRadixDigit(s[i], radix)
    ensures n < |s| ==> !IsRadixDigit(s[n], radix)
  {
    if s != [] && IsRadixDigit(s[0], radix) then 1 + DigitRun(s[1..], radix) else 0
  }

  function RadixValue(s: string, radix: nat): nat
    requires forall i :: 0 <= i < |s| ==> IsRadixDigit(s[i], radix)
  {
    if s == [] then 0 else radix * RadixValue(s[..|s| - 1], radix) + RadixDigitValue(s[|s| - 1], radix)
  }

  /**
   * `parseInt(s)` without a radix: leading white space skipped, one optional sign, a
   * "0x"/"0X" prefix selecting base 16, then the longest run of digits; None stands for NaN.
   * Negative zero is returned as 0, the key a Map lookup of -0 finds.
   */
  function ParseInt(s: string): Option<int>
  {
    SignedInt(TrimStart(s))
  }

  /** One optional sign, then the unsigned part. */
  function SignedInt(t: string): Option<int>
  {
    if |t| > 0 && t[0] == '-' then
      match UnsignedInt(t[1..])
      case None => None
      case Some(v) => Some(-(v as int))
    else if |t| > 0 && t[0] == '+' then UnsignedInt(t[1..])
    else UnsignedInt(t)
  }

  /** A "0x"/"0X" prefix selects base 16; otherwise base 10. */
  function UnsignedInt(u: string): Option<nat>
  {
    if |u| >= 2 && u[0] == '0' && (u[1] == 'x' || u[1] == 'X') then LeadingDigits(u[2..], 16)
    else LeadingDigits(u, 10)
  }

  /** The value of the longest run of digits at the start of `body`; None when there is none. */
  function LeadingDigits(body: string, radix: nat): Option<nat>
  {
    var n := DigitRun(body, radix);
    if n == 0 then None else Some(RadixValue(body[..n], radix))
  }

  /** `filename.split(".")[0]`: the file name up to its first dot. */
  function Stem(filename: string): (r: string)
    ensures StartsWith(filename, r) && '.' !in r
    ensures |r| < |filename| ==> filename[|r|] == '.'
  {
    filename[..IndexOf(filename, '.')]
  }

  /** The name of the audio file the synthesis server writes for a nonce. */
  function AudioFileName(nonce: string): string
  {
    nonce + ".wav"
  }

  lemma {:induction false} RadixValueDecimal(s: string)
    requires AllDigits(s)
    ensures RadixValue(s, 10) == DecimalValue(s)
  {
    if s != [] {
      RadixValueDecimal(s[..|s| - 1]);
    }
  }

  /** parseInt reads a canonical decimal back: the number a message was sent under. */
  lemma ParseIntDecimal(n: nat)
    ensures ParseInt(Decimal(n)) == Some(n)
  {
    var s := Decimal(n);
    TrimStartDigits(s);
    UnsignedDigits(s);
    DecimalRoundTrip(n);
  }

  lemma TrimStartDigits(s: string)
    requires AllDigits(s) && |s| >= 1
    ensures TrimStart(s) == s && ParseInt(s) == UnsignedInt(s)
  {
    assert !IsJsWhiteSpace(s[0]);
  }

  /** Digits with no "0x" prefix are read in base 10, all of them. */
  lemma UnsignedDigits(s: string)
    requires Canonical(s)
    ensures UnsignedInt(s) == Some(DecimalValue(s))
  {
    assert !(|s| >= 2 && s[0] == '0');
    DigitRunAt(s, |s|);
    assert s[..|s|] == s;
    RadixValueDecimal(s);
  }

  lemma {:induction false} DigitRunAt(s: string, n: nat)
    requires n <= |s| && forall i :: 0 <= i < n ==> IsRadixDigit(s[i], 10)
    requires n == |s| || !IsDigit(s[n])
    ensures DigitRun(s, 10) == n
  {
    if n > 0 {
      DigitRunAt(s[1..], n - 1);
    }
  }

  /** The watcher turns the audio file name of nonce n back into n. */
  lemma AudioFileNameRoundTrip(n: nat)
    ensures Stem(AudioFileName(Decimal(n))) == Decimal(n)
    ensures ParseInt(Stem(AudioFileName(Decimal(n)))) == Some(n)
  {
    var d := Decimal(n);
    var f := AudioFileName(d);
    DigitsLack(d, '.');
    IndexOfFirst(d, '.', "wav");
    assert f == d + ['.'] + "wav";
    assert f[..|d|] == d;
    ParseIntDecimal(n);
  }

  /** The directory the watcher watches and plays from. */
  const OutputDir: string := "tts_output"

  /** What the watcher did with one file-system event; `path` is the file played. */
  datatype WatchResult<C> = Ignored | Missed(parsed: Option<int>) | Played(nonce: int, connection: C, path: string)

  /**
   * The module state of tts.ts: the nonce counter and the connections waiting for their
   * audio.  `spent` (ghost) holds the nonces whose audio was played.
   */
  class TtsClient<C> {
    var nonce: nat
    var connections: map<int, C>
    ghost var spent: set<int>

    ghost predicate Valid()
      reads this
    {
      && (forall k :: k in connections ==> 0 <= k < nonce)
      && (forall k :: k in spent ==> 0 <= k < nonce)
      && connections.Keys !! spent
    }

    constructor ()
      ensures Valid() && nonce == 0 && connections == map[] && spent == {}
    {
      nonce := 0;
      connections := map[];
      spent := {};
    }

    /**
     * playText: the message carries the current nonce, the connection is registered under
     * that same nonce, which no entry used before, and the counter moves on.
     */
    method PlayText(text: string, connection: C) returns (message: string)
      requires Valid()
      modifies this
      ensures Valid()
      ensures message == WireMessage(old(nonce), text)
      ensures old(nonce) !in old(connections) && old(nonce) !in old(spent)
      ensures connections == old(connections)[old(nonce) := connection]
      ensures nonce == old(nonce) + 1 && spent == old(spent)
    {
      message := Decimal(nonce) + " " + text;
      connections := connections[nonce := connection];
      nonce := nonce + 1;
    }

    /**
     * The fs.watch callback.  Only "rename" events with a (non-empty) file name are
     * handled; a nonce with no waiting connection is a miss that changes nothing; a hit
     * removes exactly that entry before the file is played, so it is never played twice.
     */
    method OnWatchEvent(eventType: string, filename: Option<string>) returns (result: WatchResult<C>)
      requires Valid()
      modifies this
      ensures Valid() && nonce == old(nonce)
      ensures !(eventType == "rename" && filename.Some? && filename.value != "") ==>
                result == Ignored && connections == old(connections) && spent == old(spent)
      ensures eventType == "rename" && filename.Some? && filename.value != "" ==>
                var key := ParseInt(Stem(filename.value));
                if key.Some? && key.value in old(connections) then
                  && result == Played(key.value, old(connections)[key.value], OutputDir + "/" + filename.value)
                  && key.value !in old(spent)
                  && connections == old(connections) - {key.value}
                  && spent == old(spent) + {key.value}
                else
                  result == Missed(key) && connections == old(connections) && spent == old(spent)
    {
      if eventType == "rename" && filename.Some? && filename.value != "" {
        result := Take(ParseInt(Stem(filename.value)), OutputDir + "/" + filename.value);
      } else {
        result := Ignored;
      }
    }

    /**
     * The lookup and removal for a parsed nonce: a hit plays the file at `path` once on the
     * waiting connection, a miss changes nothing.
     */
    method Take(key: Option<int>, path: string) returns (result: WatchResult<C>)
      requires Valid()
      modifies this
      ensures Valid() && nonce == old(nonce)
      ensures if key.Some? && key.value in old(connections) then
                && result == Played(key.value, old(connections)[key.value], path)
                && key.value !in old(spent)
                && connections == old(connections) - {key.value}
                && spent == old(spent) + {key.value}
              else
                result == Missed(key) && connections == old(connections) && spent == old(spent)
    {
      if key.None? || key.value !in connections {
        return Missed(key);
      }
      var connection := connections[key.value];
      connections := connections - {key.value};
      spent := spent + {key.value};
      return Played(key.value, connection, path);
    }
  }

  /** A second event for a nonce that was already played is a miss. */
  method PlayedOnce<C>(client: TtsClient<C>, text: string, connection: C)
    returns (first: WatchResult<C>, second: WatchResult<C>)
    requires client.Valid()
    modifies client
    ensures first == Played(old(client.nonce), connection, OutputDir + "/" + AudioFileName(Decimal(old(client.nonce))))
    ensures second == Missed(Some(old(client.nonce)))
  {
    var message := client.PlayText(text, connection);
    var n := client.nonce - 1;
    AudioFileNameRoundTrip(n);
    first := client.OnWatchEvent("rename", Some(AudioFileName(Decimal(n))));
    second := client.OnWatchEvent("rename", Some(AudioFileName(Decimal(n))));
  }
}
