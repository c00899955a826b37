/**
 * Usage metering in the forward proxy (apps/job/src/anthropicForwardProxy.ts): an incremental
 * parser over a chunked server-sent-event stream, and the sample reported per relayed request.
 * Chunks are decoded text; parsing one JSON line is a parameter.
 */
module SseUsage {
  import opened Wrappers
  import opened TextLines

  /** What one `data:` line carries: its model, and the numeric fields of its usage object */
  datatype UsageEvent = UsageEvent(model: Option<string>, usage: map<string, int>)

  /** The JSON parser applied to a line's payload; `None` when it does not parse to an object */
  type LineDecoder = string -> Option<UsageEvent>

  datatype TokenUsage = TokenUsage(input: int, output: int, cacheRead: int, cacheCreation: int)

  datatype Merged = Merged(usage: map<string, int>, model: Option<string>)

  datatype ParsedUsage = ParsedUsage(usage: Option<TokenUsage>, model: Option<string>)

  const NOTHING := Merged(map[], None)

  predicate Contains(s: string, part: string) {
    exists i :: 0 <= i <= |s| && part <= s[i..]
  }

  function EventOf(decode: LineDecoder, line: string): Option<UsageEvent> {
    if !("data:" <= line) || !Contains(line, "\"usage\"") then None else decode(line[5..])
  }

  /** `parseLine`: later values replace earlier ones per key */
  function ParseLine(decode: LineDecoder, merged: Merged, line: string): Merged {
    match EventOf(decode, line)
    case None => merged
    case Some(event) =>
      Merged(merged.usage + event.usage, if event.model.Some? then event.model else merged.model)
  }

  function Fold(decode: LineDecoder, lines: seq<string>): Merged {
    if lines == [] then NOTHING
    else ParseLine(decode, Fold(decode, lines[..|lines| - 1]), lines[|lines| - 1])
  }

  function Bucket(usage: map<string, int>, key: string): int {
    if key in usage then usage[key] else 0
  }

  function UsageFrom(usage: map<string, int>): Option<TokenUsage> {
    if "input_tokens" !in usage && "output_tokens" !in usage then None
    else Some(TokenUsage(Bucket(usage, "input_tokens"), Bucket(usage, "output_tokens"),
                         Bucket(usage, "cache_read_input_tokens"), Bucket(usage, "cache_creation_input_tokens")))
  }

  /** The whole-text meaning of a stream: a fold over its lines */
  function UsageOfText(decode: LineDecoder, text: string): ParsedUsage {
    var merged := Fold(decode, Split(text));
    ParsedUsage(UsageFrom(merged.usage), merged.model)
  }

  /** A `data:` line that mentions usage and parses */
  predicate IsUsageLine(decode: LineDecoder, line: string) {
    "data:" <= line && (exists i :: 0 <= i <= |line| && "\"usage\"" <= line[i..]) && decode(line[5..]).Some?
  }

  lemma EventIff(decode: LineDecoder, line: string)
    ensures EventOf(decode, line).Some? <==> IsUsageLine(decode, line)
    ensures IsUsageLine(decode, line) ==> EventOf(decode, line) == decode(line[5..])
  {
  }

  predicate Carries(decode: LineDecoder, line: string, key: string) {
    IsUsageLine(decode, line) && key in decode(line[5..]).value.usage
  }

  /** A key's value is the one of the last line that carries it; a key no line carries is absent. */
  lemma {:induction false} LastValueWins(decode: LineDecoder, lines: seq<string>, key: string)
    ensures key in Fold(decode, lines).usage <==> exists i :: 0 <= i < |lines| && Carries(decode, lines[i], key)
    ensures forall i :: 0 <= i < |lines| && Carries(decode, lines[i], key) &&
                        (forall j :: i < j < |lines| ==> !Carries(decode, lines[j], key))
              ==> key in Fold(decode, lines).usage &&
                  Fold(decode, lines).usage[key] == decode(lines[i][5..]).value.usage[key]
  {
    if lines != [] {
      var n := |lines| - 1;
      LastValueWins(decode, lines[..n], key);
      EventIff(decode, lines[n]);
      if Carries(decode, lines[n], key) {
      } else {
        forall i | 0 <= i < n && Carries(decode, lines[..n][i], key) ensures Carries(decode, lines[i], key) {
        }
        forall i | 0 <= i < |lines| && Carries(decode, lines[i], key)
          ensures i < n && Carries(decode, lines[..n][i], key)
        {
        }
      }
    }
  }

  predicate NamesModel(decode: LineDecoder, line: string) {
    IsUsageLine(decode, line) && decode(line[5..]).value.model.Some?
  }

  /** The model is the one the last usage line with a model names; without any there is none. */
  lemma {:induction false} LastModelWins(decode: LineDecoder, lines: seq<string>)
    ensures Fold(decode, lines).model.Some? <==> exists i :: 0 <= i < |lines| && NamesModel(decode, lines[i])
    ensures forall i :: 0 <= i < |lines| && NamesModel(decode, lines[i]) && (forall j :: i < j < |lines| ==> !NamesModel(decode, lines[j]))
              ==> Fold(decode, lines).model == decode(lines[i][5..]).value.model
  {
    if lines != [] {
      var n := |lines| - 1;
      LastModelWins(decode, lines[..n]);
      EventIff(decode, lines[n]);
      forall i | 0 <= i < n ensures NamesModel(decode, lines[..n][i]) <==> NamesModel(decode, lines[i]) {
      }
      if i :| 0 <= i < n && NamesModel(decode, lines[..n][i]) {
        assert NamesModel(decode, lines[i]);
      }
    }
  }

  /** The last value of a key, or zero when no line carries it */
  ghost predicate IsLastOrZero(decode: LineDecoder, lines: seq<string>, key: string, value: int) {
    if exists i :: 0 <= i < |lines| && Carries(decode, lines[i], key) then
      exists i :: 0 <= i < |lines| && Carries(decode, lines[i], key) && (forall j :: i < j < |lines| ==> !Carries(decode, lines[j], key))
                  && value == decode(lines[i][5..]).value.usage[key]
    else value == 0
  }

  lemma {:induction false} LastCarrier(decode: LineDecoder, lines: seq<string>, key: string, k: nat) returns (i: nat)
    requires k < |lines| && Carries(decode, lines[k], key)
    ensures i < |lines| && Carries(decode, lines[i], key) && forall j :: i < j < |lines| ==> !Carries(decode, lines[j], key)
    decreases |lines| - k
  {
    if j: nat :| k < j < |lines| && Carries(decode, lines[j], key) {
      i := LastCarrier(decode, lines, key, j);
    } else {
      i := k;
    }
  }

  lemma BucketIsLast(decode: LineDecoder, lines: seq<string>, key: string)
    ensures IsLastOrZero(decode, lines, key, Bucket(Fold(decode, lines).usage, key))
  {
    LastValueWins(decode, lines, key);
    if k: nat :| k < |lines| && Carries(decode, lines[k], key) {
      var i := LastCarrier(decode, lines, key, k);
      assert Carries(decode, lines[i], key);
    }
  }

  /**
   * A stream declares usage if and only if some line of it carries input or output tokens; each of
   * the four counts is then the last value of its own key, or zero.
   */
  lemma StreamUsage(decode: LineDecoder, text: string)
    ensures var lines, usage := Split(text), UsageOfText(decode, text).usage;
            && (usage.Some? <==> exists i :: 0 <= i < |lines| && (Carries(decode, lines[i], "input_tokens") || Carries(decode, lines[i], "output_tokens")))
            && (usage.Some? ==>
                  && IsLastOrZero(decode, lines, "input_tokens", usage.value.input)
                  && IsLastOrZero(decode, lines, "output_tokens", usage.value.output)
                  && IsLastOrZero(decode, lines, "cache_read_input_tokens", usage.value.cacheRead)
                  && IsLastOrZero(decode, lines, "cache_creation_input_tokens", usage.value.cacheCreation))
  {
    var lines := Split(text);
    UsageFields(Fold(decode, lines).usage);
    CarriedIff(decode, lines, "input_tokens");
    CarriedIff(decode, lines, "output_tokens");
    BucketIsLast(decode, lines, "input_tokens");
    BucketIsLast(decode, lines, "output_tokens");
    BucketIsLast(decode, lines, "cache_read_input_tokens");
    BucketIsLast(decode, lines, "cache_creation_input_tokens");
  }

  lemma CarriedIff(decode: LineDecoder, lines: seq<string>, key: string)
    ensures key in Fold(decode, lines).usage <==> exists i :: 0 <= i < |lines| && Carries(decode, lines[i], key)
  {
    LastValueWins(decode, lines, key);
  }

  lemma UsageFields(usage: map<string, int>)
    ensures UsageFrom(usage).Some? <==> "input_tokens" in usage || "output_tokens" in usage
    ensures UsageFrom(usage).Some? ==>
              && UsageFrom(usage).value.input == Bucket(usage, "input_tokens")
              && UsageFrom(usage).value.output == Bucket(usage, "output_tokens")
              && UsageFrom(usage).value.cacheRead == Bucket(usage, "cache_read_input_tokens")
              && UsageFrom(usage).value.cacheCreation == Bucket(usage, "cache_creation_input_tokens")
  {
  }

  lemma FoldAppend(decode: LineDecoder, lines: seq<string>, line: string)
    ensures Fold(decode, lines + [line]) == ParseLine(decode, Fold(decode, lines), line)
  {
    assert (lines + [line])[..|lines|] == lines;
  }

  lemma FoldOfLines(decode: LineDecoder, lines: seq<string>)
    requires lines != []
    ensures Fold(decode, lines) == ParseLine(decode, Fold(decode, Init(lines)), Last(lines))
  {
  }

  class SseUsageParser {
    const decode: LineDecoder
    var remainder: string
    var merged: map<string, int>
    var model: Option<string>
    /** Everything pushed so far */
    ghost var text: string

    /** All complete lines are folded in; the remainder is the open last line, free of newlines */
    ghost predicate Valid()
      reads this
    {
      && Merged(merged, model) == Fold(decode, Init(Split(text)))
      && remainder == Last(Split(text))
      && '\n' !in remainder
    }

    constructor (decode: LineDecoder)
      ensures Valid() && text == "" && this.decode == decode
    {
      this.decode := decode;
      remainder, merged, model, text := "", map[], None, "";
    }

    method Take(line: string)
      modifies this
      ensures Merged(merged, model) == ParseLine(decode, Merged(old(merged), old(model)), line)
      ensures remainder == old(remainder) && text == old(text)
    {
      if !("data:" <= line) || !Contains(line, "\"usage\"") {
        return;
      }
      var event := decode(line[5..]);
      if event.None? {
        return;
      }
      if event.value.model.Some? {
        model := event.value.model;
      }
      merged := merged + event.value.usage;
    }

    method TakeAll(lines: seq<string>, ghost seen: seq<string>)
      requires Merged(merged, model) == Fold(decode, seen)
      modifies this
      ensures Merged(merged, model) == Fold(decode, seen + lines)
      ensures remainder == old(remainder) && text == old(text)
    {
      assert seen + lines[..0] == seen;
      for i := 0 to |lines|
        invariant Merged(merged, model) == Fold(decode, seen + lines[..i])
        invariant remainder == old(remainder) && text == old(text)
      {
        FoldAppend(decode, seen + lines[..i], lines[i]);
        assert seen + lines[..i] + [lines[i]] == seen + lines[..i + 1];
        Take(lines[i]);
      }
      assert lines[..|lines|] == lines;
    }

    method Push(chunk: string)
      requires Valid()
      modifies this
      ensures Valid() && text == old(text) + chunk
    {
      SplitConcat(text, chunk);
      LastHasNoNewline(text + chunk);
      var lines := Split(remainder + chunk);
      ghost var folded := Init(Split(text));
      assert Init(Split(text + chunk)) == folded + Init(lines);
      remainder := Last(lines);
      text := text + chunk;
      TakeAll(Init(lines), folded);
    }

    /** The remainder counts as a last line; what comes out depends on the whole text only. */
    method Result() returns (result: ParsedUsage)
      requires Valid()
      modifies this
      ensures text == old(text) && result == UsageOfText(decode, text)
    {
      FoldOfLines(decode, Split(text));
      Take(remainder);
      remainder := "";
      result := ParsedUsage(UsageFrom(merged), model);
    }
  }

  // ----- One relayed request -----

  const BYTES_PER_TOKEN: nat := 4
  const JSON_PARSE_CAP: nat := 4 * 1024 * 1024

  datatype Sample = Sample(usage: TokenUsage, model: Option<string>, estimated: bool, requestBytes: nat, responseBytes: nat)

  /** One piece of a response body: its decoded text and its size on the wire */
  datatype Chunk = Chunk(text: string, bytes: nat)

  function TextOf(chunks: seq<Chunk>): string {
    if chunks == [] then "" else TextOf(chunks[..|chunks| - 1]) + chunks[|chunks| - 1].text
  }

  function BytesOf(chunks: seq<Chunk>): nat {
    if chunks == [] then 0 else BytesOf(chunks[..|chunks| - 1]) + chunks[|chunks| - 1].bytes
  }

  lemma OneMoreChunk(chunks: seq<Chunk>, i: nat)
    requires i < |chunks|
    ensures TextOf(chunks[..i + 1]) == TextOf(chunks[..i]) + chunks[i].text
    ensures BytesOf(chunks[..i + 1]) == BytesOf(chunks[..i]) + chunks[i].bytes
  {
    assert chunks[..i + 1][..i] == chunks[..i];
  }

  /** `Math.ceil(bytes / 4)` */
  function EstimatedTokens(bytes: nat): (tokens: nat)
    ensures bytes <= 4 * tokens < bytes + 4
  {
    (bytes + BYTES_PER_TOKEN - 1) / BYTES_PER_TOKEN
  }

  /** The relay loop of `handleRequest` over a stream: however it is cut, the fold over its lines. */
  method ReadSse(decode: LineDecoder, chunks: seq<Chunk>) returns (parsed: ParsedUsage, responseBytes: nat)
    ensures parsed == UsageOfText(decode, TextOf(chunks)) && responseBytes == BytesOf(chunks)
  {
    var parser := new SseUsageParser(decode);
    responseBytes := 0;
    for i := 0 to |chunks|
      invariant responseBytes == BytesOf(chunks[..i])
      invariant parser.Valid() && parser.text == TextOf(chunks[..i])
    {
      OneMoreChunk(chunks, i);
      responseBytes := responseBytes + chunks[i].bytes;
      parser.Push(chunks[i].text);
    }
    assert chunks[..|chunks|] == chunks;
    parsed := parser.Result();
  }

  /** The same loop over a JSON body: chunks past the cap are not kept, and then nothing is parsed. */
  method ReadJson(parseJson: string -> ParsedUsage, chunks: seq<Chunk>) returns (parsed: ParsedUsage, responseBytes: nat)
    ensures parsed == if BytesOf(chunks) <= 4 * 1024 * 1024 then parseJson(TextOf(chunks)) else ParsedUsage(None, None)
    ensures responseBytes == BytesOf(chunks)
  {
    responseBytes := 0;
    var json := "";
    for i := 0 to |chunks|
      invariant responseBytes == BytesOf(chunks[..i])
      invariant responseBytes <= JSON_PARSE_CAP ==> json == TextOf(chunks[..i])
    {
      OneMoreChunk(chunks, i);
      responseBytes := responseBytes + chunks[i].bytes;
      if responseBytes <= JSON_PARSE_CAP {
        json := json + chunks[i].text;
      }
    }
    assert chunks[..|chunks|] == chunks;
    parsed := if responseBytes <= JSON_PARSE_CAP then parseJson(json) else ParsedUsage(None, None);
  }

  /** The byte count of a response that breaks off after these chunks */
  method ReadBroken(chunks: seq<Chunk>) returns (responseBytes: nat)
    ensures responseBytes == BytesOf(chunks)
  {
    responseBytes := 0;
    for i := 0 to |chunks|
      invariant responseBytes == BytesOf(chunks[..i])
    {
      OneMoreChunk(chunks, i);
      responseBytes := responseBytes + chunks[i].bytes;
    }
    assert chunks[..|chunks|] == chunks;
  }

  const NO_USAGE := TokenUsage(0, 0, 0, 0)

  /**
   * The sample of one relayed request. A 2xx that declares no usage is estimated, never free; but a
   * response that breaks off, whatever it had declared until then, is reported as no usage at all.
   */
  method Relay(decode: LineDecoder, parseJson: string -> ParsedUsage, sse: bool, status: int,
               requestBytes: nat, chunks: seq<Chunk>, breaks: bool) returns (sample: Sample)
    ensures breaks ==> sample == Sample(TokenUsage(0, 0, 0, 0), None, false, requestBytes, BytesOf(chunks))
    ensures !breaks ==>
              var declared :=
                if sse then UsageOfText(decode, TextOf(chunks))
                else if BytesOf(chunks) <= 4 * 1024 * 1024 then parseJson(TextOf(chunks))
                else ParsedUsage(None, None);
              && sample.model == declared.model
              && (sample.estimated <==> 200 <= status < 300 && declared.usage.None?)
              && (declared.usage.Some? ==> sample.usage == declared.usage.value)
              && (declared.usage.None? && !sample.estimated ==> sample.usage == TokenUsage(0, 0, 0, 0))
    ensures sample.requestBytes == requestBytes && sample.responseBytes == BytesOf(chunks)
    ensures sample.estimated ==>
              && sample.usage == TokenUsage(sample.usage.input, 0, 0, 0)
              && requestBytes + BytesOf(chunks) <= 4 * sample.usage.input < requestBytes + BytesOf(chunks) + 4
  {
    var parsed: ParsedUsage;
    var responseBytes: nat;
    if breaks {
      responseBytes := ReadBroken(chunks);
      return Sample(NO_USAGE, None, false, requestBytes, responseBytes);
    }
    if sse {
      parsed, responseBytes := ReadSse(decode, chunks);
    } else {
      parsed, responseBytes := ReadJson(parseJson, chunks);
    }
    var estimated := 200 <= status < 300 && parsed.usage.None?;
    var usage :=
      if parsed.usage.Some? then parsed.usage.value
      else if estimated then TokenUsage(EstimatedTokens(requestBytes + responseBytes), 0, 0, 0)
      else NO_USAGE;
    sample := Sample(usage, parsed.model, estimated, requestBytes, responseBytes);
  }
}
