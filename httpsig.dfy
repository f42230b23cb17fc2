/** The HTTP signature the bot attaches to its outgoing requests: the base
    string in the style of section 2.3 of draft-cavage-http-signatures (a
    `(request-target)` line, then one line per header, joined by newlines and
    encoded as ASCII), and the `Signature` header value built around an
    external signer. */
module HttpSignature {

  import opened Results
  import opened Strings
  import opened Json
  import opened Config

  type byte = x: int | 0 <= x < 256

  /** `s.encode("ascii")`: one byte per character, or UnicodeEncodeError. */
  function EncodeAscii(s: string): (r: Result<seq<byte>>)
    ensures r.Ok? <==> IsAscii(s)
    ensures r.Err? ==> r.error == UnicodeEncodeError
    ensures r.Ok? ==> |r.value| == |s|
  {
    if IsAscii(s) then Ok(seq(|s|, i requires 0 <= i < |s| => s[i] as int as byte)) else Err(UnicodeEncodeError)
  }

  /** `b.decode("ascii")` on bytes below 128. */
  function DecodeAscii(b: seq<byte>): string {
    seq(|b|, i requires 0 <= i < |b| => b[i] as char)
  }

  /** Encoding is undone by decoding. */
  lemma EncodeDecode(s: string)
    requires IsAscii(s)
    ensures DecodeAscii(EncodeAscii(s).value) == s
  {
    var d := DecodeAscii(EncodeAscii(s).value);
    forall i | 0 <= i < |s| ensures d[i] == s[i] {
      assert IsAsciiChar(s[i]);
    }
  }

  // ---------------------------------------------------------------------------
  // The signature base string

  function RequestTargetLine(verb: string, path: string): string {
    "(request-target): " + Lower(verb) + " " + path
  }

  function HeaderLine(key: string, value: string): string {
    Lower(key) + ": " + value
  }

  /** One line per header, in the dict's iteration order. */
  function HeaderLines(headers: Dict<string, string>): seq<string> {
    seq(|headers|, i requires 0 <= i < |headers| => HeaderLine(headers[i].0, headers[i].1))
  }

  function BaseLines(verb: string, path: string, headers: Dict<string, string>): seq<string> {
    [RequestTargetLine(verb, path)] + HeaderLines(headers)
  }

  function BaseString(verb: string, path: string, headers: Dict<string, string>): string {
    Join(BaseLines(verb, path, headers), "\n")
  }

  /** What `sign_header_message` returns or raises. */
  function SignatureBase(verb: string, path: string, headers: Dict<string, string>): Result<seq<byte>> {
    EncodeAscii(BaseString(verb, path, headers))
  }

  /** `sign_header_message`: build the lines in a loop, join them and encode. */
  method SignHeaderMessage(verb: string, path: string, headers: Dict<string, string>)
    returns (message: Result<seq<byte>>)
    ensures message == SignatureBase(verb, path, headers)
  {
    var lines := [RequestTargetLine(verb, path)];
    var i := 0;
    while i < |headers|
      invariant 0 <= i <= |headers|
      invariant lines == [RequestTargetLine(verb, path)] + HeaderLines(headers[..i])
    {
      var (key, value) := headers[i];
      assert HeaderLines(headers[..i + 1]) == HeaderLines(headers[..i]) + [HeaderLine(key, value)];
      lines := lines + [HeaderLine(key, value)];
      i := i + 1;
    }
    assert headers[..i] == headers;
    message := EncodeAscii(Join(lines, "\n"));
  }

  /** Lower-casing neither adds nor removes a given non-letter character
      other than the Kelvin sign. */
  lemma LowerKeepsChar(s: string, c: char)
    requires !('A' <= c <= 'Z') && !('a' <= c <= 'z') && c != KelvinSign
    ensures c in Lower(s) <==> c in s
  {
    if c in s {
      var i :| 0 <= i < |s| && s[i] == c;
      assert Lower(s)[i] == c;
    }
    if c in Lower(s) {
      var i :| 0 <= i < |Lower(s)| && Lower(s)[i] == c;
      assert s[i] == c;
    }
  }

  /** When no component contains a newline, splitting the base string on
      newlines gives back exactly the request-target line followed by one
      `lower(key): value` line per header: 1 + len(headers) lines, no
      trailing newline. */
  lemma BaseStringLines(verb: string, path: string, headers: Dict<string, string>)
    requires '\n' !in verb && '\n' !in path
    requires forall k :: 0 <= k < |headers| ==> '\n' !in headers[k].0 && '\n' !in headers[k].1
    ensures |Split(BaseString(verb, path, headers), '\n')| == 1 + |headers|
    ensures Split(BaseString(verb, path, headers), '\n')[0] == "(request-target): " + Lower(verb) + " " + path
    ensures forall k :: 0 <= k < |headers| ==>
              Split(BaseString(verb, path, headers), '\n')[1 + k] == Lower(headers[k].0) + ": " + headers[k].1
  {
    var lines := BaseLines(verb, path, headers);
    LowerKeepsChar(verb, '\n');
    forall k | 0 <= k < |lines| ensures '\n' !in lines[k] {
      if k > 0 {
        LowerKeepsChar(headers[k - 1].0, '\n');
      }
    }
    SplitJoin(lines, '\n');
  }

  lemma {:induction false} JoinAscii(parts: seq<string>, sep: string)
    requires IsAscii(sep)
    ensures IsAscii(Join(parts, sep)) <==> forall k :: 0 <= k < |parts| ==> IsAscii(parts[k])
  {
    if |parts| > 1 {
      JoinAscii(parts[1..], sep);
      AsciiConcat(parts[0], sep);
      AsciiConcat(parts[0] + sep, Join(parts[1..], sep));
      if forall k :: 1 <= k < |parts| ==> IsAscii(parts[k]) {
        assert forall k :: 0 <= k < |parts[1..]| ==> IsAscii(parts[1..][k]);
      }
      if forall k :: 0 <= k < |parts[1..]| ==> IsAscii(parts[1..][k]) {
        assert forall k :: 1 <= k < |parts| ==> IsAscii(parts[k]) by {
          forall k | 1 <= k < |parts| ensures IsAscii(parts[k]) {
            assert parts[k] == parts[1..][k - 1];
          }
        }
      }
    }
  }

  /** The message can be built exactly when the path and every header value
      are ASCII and the verb and every header key are ASCII once lower-cased
      (ASCII or the Kelvin sign); otherwise the encode raises. */
  lemma SignatureBaseAscii(verb: string, path: string, headers: Dict<string, string>)
    ensures SignatureBase(verb, path, headers).Ok? <==>
              LowersToAscii(verb) && IsAscii(path)
              && forall k :: 0 <= k < |headers| ==> LowersToAscii(headers[k].0) && IsAscii(headers[k].1)
    ensures SignatureBase(verb, path, headers).Err? ==>
              SignatureBase(verb, path, headers).error == UnicodeEncodeError
  {
    var lines := BaseLines(verb, path, headers);
    JoinAscii(lines, "\n");
    LowerAscii(verb);
    AsciiConcat("(request-target): ", Lower(verb));
    AsciiConcat("(request-target): " + Lower(verb), " ");
    AsciiConcat("(request-target): " + Lower(verb) + " ", path);
    forall k | 0 <= k < |headers|
      ensures IsAscii(lines[1 + k]) <==> LowersToAscii(headers[k].0) && IsAscii(headers[k].1)
    {
      LowerAscii(headers[k].0);
      AsciiConcat(Lower(headers[k].0), ": ");
      AsciiConcat(Lower(headers[k].0) + ": ", headers[k].1);
    }
    if forall k :: 0 <= k < |lines| ==> IsAscii(lines[k]) {
      assert IsAscii(lines[0]);
      forall k | 0 <= k < |headers| ensures LowersToAscii(headers[k].0) && IsAscii(headers[k].1) {
        assert IsAscii(lines[1 + k]);
      }
    }
    if LowersToAscii(verb) && IsAscii(path) && forall k :: 0 <= k < |headers| ==> LowersToAscii(headers[k].0) && IsAscii(headers[k].1) {
      forall k | 0 <= k < |lines| ensures IsAscii(lines[k]) {
        if k > 0 {
          assert IsAscii(lines[1 + (k - 1)]);
        }
      }
    }
  }

  /** A verb holding a Kelvin sign still encodes: it is lowered to "k" first. */
  lemma KelvinVerbEncodes(path: string)
    requires IsAscii(path)
    ensures SignatureBase([KelvinSign], path, []).Ok?
  {
    SignatureBaseAscii([KelvinSign], path, []);
  }

  /** A successfully built message decodes to the base string. */
  lemma SignatureBaseDecodes(verb: string, path: string, headers: Dict<string, string>)
    requires SignatureBase(verb, path, headers).Ok?
    ensures DecodeAscii(SignatureBase(verb, path, headers).value) == BaseString(verb, path, headers)
  {
    EncodeDecode(BaseString(verb, path, headers));
  }

  // ---------------------------------------------------------------------------
  // The Signature header

  /** The declared header list: the same text whatever headers were signed. */
  const SignedHeaders: string := "(request-target) host date"

  function SignatureParams(keyId: string, signature: string): seq<(string, string)> {
    [("keyId", keyId), ("algorithm", "rsa-sha256"), ("headers", SignedHeaders), ("signature", signature)]
  }

  /** `f'{k}="{v}"'`. */
  function Param(p: (string, string)): string {
    p.0 + "=\"" + p.1 + "\""
  }

  /** The `Signature` header value: the four parameters joined by commas. */
  function SignatureValue(keyId: string, signature: string): string {
    var ps := SignatureParams(keyId, signature);
    Join(seq(|ps|, i requires 0 <= i < |ps| => Param(ps[i])), ",")
  }

  /** The header value spelled out, fields in their fixed order. */
  lemma SignatureValueLayout(keyId: string, signature: string)
    ensures SignatureValue(keyId, signature) ==
              "keyId=\"" + keyId + "\"" + "," + "algorithm=\"rsa-sha256\"" + ","
              + "headers=\"(request-target) host date\"" + "," + "signature=\"" + signature + "\""
  {
    var ps := SignatureParams(keyId, signature);
    var parts := seq(|ps|, i requires 0 <= i < |ps| => Param(ps[i]));
    ParamTextsAre(keyId, signature);
    JoinFour(ParamTexts(keyId, signature), ",");
  }

  /** The four parameters, each rendered as `name="value"`. */
  function ParamTexts(keyId: string, signature: string): seq<string> {
    ["keyId=\"" + keyId + "\"", "algorithm=\"rsa-sha256\"",
     "headers=\"(request-target) host date\"", "signature=\"" + signature + "\""]
  }

  lemma ParamTextsAre(keyId: string, signature: string)
    ensures seq(4, i requires 0 <= i < 4 => Param(SignatureParams(keyId, signature)[i])) == ParamTexts(keyId, signature)
  {
    assert "keyId" + "=\"" == "keyId=\"";
    assert "signature" + "=\"" == "signature=\"";
    assert "algorithm" + "=\"" + "rsa-sha256" + "\"" == "algorithm=\"rsa-sha256\"";
    assert "headers" + "=\"" + SignedHeaders + "\"" == "headers=\"(request-target) host date\"";
  }

  lemma JoinFour(parts: seq<string>, sep: string)
    requires |parts| == 4
    ensures Join(parts, sep) == parts[0] + sep + parts[1] + sep + parts[2] + sep + parts[3]
  {
    assert parts[1..][1..][1..] == [parts[3]];
    assert Join(parts[1..][1..], sep) == parts[2] + sep + parts[3];
  }

  /** A reader splitting the header value on commas recovers the four
      parameters, as long as neither the key id nor the signature holds a comma. */
  lemma SignatureValueParams(keyId: string, signature: string)
    requires ',' !in keyId && ',' !in signature
    ensures Split(SignatureValue(keyId, signature), ',') == ParamTexts(keyId, signature)
  {
    var ps := SignatureParams(keyId, signature);
    var parts := seq(|ps|, i requires 0 <= i < |ps| => Param(ps[i]));
    ParamTextsAre(keyId, signature);
    forall k | 0 <= k < |parts| ensures ',' !in parts[k] {
    }
    SplitJoin(parts, ',');
  }

  /** The KMS signer: key ring, key id, key version and message in, the text of
      the signing response out, or None when the call raises. */
  type Signer = (string, string, string, seq<byte>) -> Option<string>

  /** `sign_header`: sign the base string with the configured key (version
      "1"), then return a copy of the headers with `Signature` set. */
  function SignHeader(conf: Config, sign: Signer, verb: string, path: string,
                      headers: Dict<string, string>): Result<Dict<string, string>>
  {
    var message :- SignatureBase(verb, path, headers);
    var sig := sign(conf.kms.keyRingId, conf.kms.keyId, "1", message);
    if sig.None? then Err(ServiceError)
    else Ok(Put(headers, "Signature", SignatureValue(conf.BotId(), sig.value)))
  }

  /** Signing succeeds exactly when the message encodes and the signer answers;
      the signer is handed exactly the base string; the result is the input
      headers with `Signature` set to the value built from the bot id and the
      signer's answer, every other entry unchanged, and the key appended last
      when it was not already there. */
  lemma SignHeaderSpec(conf: Config, sign: Signer, verb: string, path: string, headers: Dict<string, string>)
    ensures SignHeader(conf, sign, verb, path, headers).Ok? <==>
              SignatureBase(verb, path, headers).Ok?
              && sign(conf.kms.keyRingId, conf.kms.keyId, "1", SignatureBase(verb, path, headers).value).Some?
    ensures SignatureBase(verb, path, headers).Err? ==>
              SignHeader(conf, sign, verb, path, headers) == Err(UnicodeEncodeError)
    ensures SignHeader(conf, sign, verb, path, headers).Ok? ==>
              var out := SignHeader(conf, sign, verb, path, headers).value;
              var sig := sign(conf.kms.keyRingId, conf.kms.keyId, "1", SignatureBase(verb, path, headers).value).value;
              && Lookup(out, "Signature") == Some(SignatureValue(conf.BotId(), sig))
              && (forall k :: k != "Signature" ==> Lookup(out, k) == Lookup(headers, k))
              && |out| == (if HasKey(headers, "Signature") then |headers| else |headers| + 1)
              && (!HasKey(headers, "Signature") ==> out == headers + [("Signature", SignatureValue(conf.BotId(), sig))])
  {
    SignatureBaseAscii(verb, path, headers);
    var r := SignHeader(conf, sign, verb, path, headers);
    if r.Ok? {
      var sig := sign(conf.kms.keyRingId, conf.kms.keyId, "1", SignatureBase(verb, path, headers).value).value;
      PutSpec(headers, "Signature", SignatureValue(conf.BotId(), sig));
    }
  }
}
