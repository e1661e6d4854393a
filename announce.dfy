/**
 The MQTT message callback `mqttCallback`: it copies the raw payload into a
 string, hands it to the JSON parser, requires the `version` and `url` keys,
 and starts the update only when the announced version differs from the one
 compiled into the firmware.
 */
module Announce {
  import opened Ota

  newtype byte = b: int | 0 <= b < 256

  const VersionKey: string := "version"
  const UrlKey: string := "url"

  /**
   What the JSON parser makes of a text: an error, or the document's top-level
   keys, each with the text its value converts to (`as<String>()`).
   */
  datatype Parse = ParseError | Parsed(fields: map<string, string>)

  /** How the callback ended. */
  datatype Verdict =
    | BadJson
    | MissingKey
    | AlreadyCurrent
    | Updated(version: string, run: Machine)

  /** `(char)payload[i]`: a byte becomes the character with the same code. */
  function ByteChar(b: byte): char {
    (b as int) as char
  }

  /** The text the callback builds from payload bytes, one character per byte, in order. */
  function Text(bytes: seq<byte>): (s: string)
    ensures |s| == |bytes|
    ensures forall i :: 0 <= i < |bytes| ==> s[i] == ByteChar(bytes[i])
  {
    seq(|bytes|, i requires 0 <= i < |bytes| => ByteChar(bytes[i]))
  }

  /** The version gate: plain string inequality, no ordering between versions. */
  predicate UpdateNeeded(current: string, announced: string) {
    announced != current
  }

  /** The decision the callback takes once the payload has been parsed. */
  function Decide(current: string, p: Parse, o: Oracle): (v: Verdict)
    ensures v.Updated? ==> p.Parsed? && VersionKey in p.fields && v.version == p.fields[VersionKey]
    ensures v.Updated? ==> UpdateNeeded(current, v.version) && Terminal(v.run.phase)
  {
    if p.ParseError? then BadJson
    else if VersionKey !in p.fields || UrlKey !in p.fields then MissingKey
    else if !UpdateNeeded(current, p.fields[VersionKey]) then AlreadyCurrent
    else Updated(p.fields[VersionKey], Execute(p.fields[UrlKey], o))
  }

  /** The library calls the update routine made while handling one message (none when it never ran). */
  function OtaCalls(v: Verdict): seq<Call> {
    if v.Updated? then v.run.calls else []
  }

  /**
   The update routine starts only when parsing succeeded, both keys are present
   and the announced version differs from the current one; it then runs on the
   announced URL. A parse error, a missing key or an equal version makes no
   library call at all.
   */
  lemma OtaStartsIff(current: string, p: Parse, o: Oracle)
    ensures Decide(current, p, o).Updated? <==>
      p.Parsed? && VersionKey in p.fields && UrlKey in p.fields && p.fields[VersionKey] != current
    ensures Decide(current, p, o).Updated? ==>
      Decide(current, p, o) == Updated(p.fields[VersionKey], Execute(p.fields[UrlKey], o))
    ensures !Decide(current, p, o).Updated? ==> OtaCalls(Decide(current, p, o)) == []
  {
  }

  /**
   A message leads to a restart exactly when it parses, carries both keys, names
   a version different from the current one, and every guard of the update
   routine passes on its URL.
   */
  lemma RestartIffAnnouncedAndAllGuardsPass(current: string, p: Parse, o: Oracle)
    ensures (Decide(current, p, o).Updated? && Decide(current, p, o).run.phase.Restarting?) <==>
      (p.Parsed? && VersionKey in p.fields && UrlKey in p.fields && p.fields[VersionKey] != current
       && AllGuardsPass(p.fields[UrlKey], o))
  {
    if p.Parsed? && VersionKey in p.fields && UrlKey in p.fields {
      RestartIffAllGuardsPass(p.fields[UrlKey], o);
    }
  }

  /**
   An announced version equal to the current one never reaches the network: no
   client is created and no connection is opened.
   */
  lemma EqualVersionNeverFetches(current: string, fields: map<string, string>, o: Oracle)
    requires VersionKey in fields && fields[VersionKey] == current
    ensures Decide(current, Parsed(fields), o) in {AlreadyCurrent, MissingKey}
    ensures OtaCalls(Decide(current, Parsed(fields), o)) == []
  {
  }

  /**
   The gate is inequality, not ordering: a version that sorts before the current
   one (here the value the firmware compiles in, "v0.0.1") still starts the update.
   */
  lemma OlderVersionStillUpdates(url: string, o: Oracle)
    ensures Decide("v0.0.1", Parsed(map[VersionKey := "v0.0.0", UrlKey := url]), o)
         == Updated("v0.0.0", Execute(url, o))
  {
    assert "v0.0.0" != "v0.0.1" by { assert "v0.0.0"[5] != "v0.0.1"[5]; }
  }

  /**
   `mqttCallback(topic, payload, length)`: copies the first `length` bytes of the
   payload into a string, parses it with `parse`, checks the keys and the version,
   and runs the update routine (under the library results `o`) when the version
   differs from `current`.
   */
  method HandleMessage(current: string, payload: seq<byte>, length: nat, parse: string -> Parse, o: Oracle)
    returns (msg: string, v: Verdict)
    requires length <= |payload|
    ensures |msg| == length
    ensures forall i :: 0 <= i < length ==> msg[i] == ByteChar(payload[i])
    ensures msg == Text(payload[..length])
    ensures v == Decide(current, parse(msg), o)
  {
    msg := "";
    for i := 0 to length
      invariant |msg| == i
      invariant forall j :: 0 <= j < i ==> msg[j] == ByteChar(payload[j])
    {
      msg := msg + [ByteChar(payload[i])];
    }
    var doc := parse(msg);
    if doc.ParseError? {
      return msg, BadJson;
    }
    if VersionKey !in doc.fields || UrlKey !in doc.fields {
      return msg, MissingKey;
    }
    var newVersion := doc.fields[VersionKey];
    var url := doc.fields[UrlKey];
    if newVersion == current {
      return msg, AlreadyCurrent;
    }
    var run := PerformOta(url, o);
    v := Updated(newVersion, run);
  }
}
