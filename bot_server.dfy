/**
 * The message decode of the synthesis server in bot.py: the nonce is the text before the
 * first space, the text to speak is everything after it, and the audio is written to
 * "tts_output/<nonce>.wav", the directory tts.ts watches.
 */
module BotServer {
  import opened Options
  import opened Text
  import Tts

  const OutputDir: string := "tts_output"

  /** The result of decoding one received message. */
  datatype Request = Request(nonce: string, text: string)

  /**
   * `nonce = message.split(" ")[0]` then `message[len(nonce) + 1:]`.  The nonce holds no
   * space; when the message has a space it is nonce, one space, text; when it has none the
   * whole message is the nonce and the text is empty (the slice starts past the end).
   */
  function Decode(message: string): (r: Request)
    ensures ' ' !in r.nonce
    ensures ' ' in message ==> message == r.nonce + " " + r.text
    ensures ' ' !in message ==> r.nonce == message && r.text == ""
  {
    var cut := IndexOf(message, ' ');
    var start := if cut + 1 <= |message| then cut + 1 else |message|;
    assert ' ' in message ==> message == message[..cut] + " " + message[start..];
    Request(message[..cut], message[start..])
  }

  /** `f"{output_dir}/{nonce}.wav"` */
  function OutputPath(nonce: string): (path: string)
  {
    OutputDir + "/" + Tts.AudioFileName(nonce)
  }

  /** Any message that has the shape tts.ts sends is split back into its two parts. */
  lemma DecodeSplits(nonce: string, text: string)
    requires ' ' !in nonce
    ensures Decode(nonce + " " + text) == Request(nonce, text)
  {
    IndexOfFirst(nonce, ' ', text);
    assert nonce + " " + text == nonce + [' '] + text;
  }

  /** What playText sends for nonce n decodes to the decimal of n and the exact text. */
  lemma WireRoundTrip(n: nat, text: string)
    ensures Decode(Tts.WireMessage(n, text)) == Request(Decimal(n), text)
  {
    DigitsLack(Decimal(n), ' ');
    DecodeSplits(Decimal(n), text);
  }

  /**
   * The whole link: the file written for a message from playText lies in the watched
   * directory, and its name parses back to the nonce the connection waits under.
   */
  lemma OutputPathNamesNonce(n: nat, text: string)
    ensures var path := OutputPath(Decode(Tts.WireMessage(n, text)).nonce);
      && path == Tts.OutputDir + "/" + Tts.AudioFileName(Decimal(n))
      && Tts.ParseInt(Tts.Stem(Tts.AudioFileName(Decimal(n)))) == Some(n)
  {
    WireRoundTrip(n, text);
    Tts.AudioFileNameRoundTrip(n);
  }
}
