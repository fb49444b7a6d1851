/** Two capped readers: the response body of a URL inspection and the output of a runner process.
    The first does not depend on how the stream is cut into chunks; the second does exactly when a
    character torn by the chunks shows within the cap. */
module CappedRead {
  import opened Text
  import opened Utf8
  import opened Utf8Chunks

  function First<T>(s: seq<T>, n: nat): seq<T> {
    if |s| <= n then s else s[..n]
  }

  // ----- readResponse -----

  /** What a body reader has after some chunks: its bytes, and whether it reported truncation. */
  datatype Body = Body(bytes: seq<Byte>, truncated: bool)

  /** A chunk that arrives when the cap is already reached reports truncation even if it is empty. */
  ghost predicate ArrivedLate(chunks: seq<seq<Byte>>, cap: nat) {
    exists k | 0 <= k < |chunks| :: |Concat(chunks[..k])| >= cap
  }

  ghost predicate Reads(chunks: seq<seq<Byte>>, cap: nat, body: Body) {
    && body.bytes == First(Concat(chunks), cap)
    && (body.truncated <==> |Concat(chunks)| > cap || ArrivedLate(chunks, cap))
  }

  lemma ConcatStep(chunks: seq<seq<Byte>>, chunk: seq<Byte>, cap: nat)
    ensures Concat(chunks + [chunk]) == Concat(chunks) + chunk
    ensures ArrivedLate(chunks + [chunk], cap) <==> ArrivedLate(chunks, cap) || |Concat(chunks)| >= cap
  {
    var longer := chunks + [chunk];
    assert longer[..|chunks|] == chunks;
    assert forall k | 0 <= k <= |chunks| :: longer[..k] == chunks[..k];
    assert chunks[..|chunks|] == chunks;
  }

  class BodyReader {
    const cap: nat
    var body: seq<Byte>
    var downloaded: nat
    var truncated: bool
    ghost var received: seq<seq<Byte>>

    ghost predicate Valid()
      reads this
    {
      downloaded == |body| && Reads(received, cap, Body(body, truncated))
    }

    constructor (cap: nat)
      ensures Valid() && this.cap == cap && received == []
    {
      this.cap := cap;
      body, downloaded, truncated, received := [], 0, false, [];
    }

    method OnData(chunk: seq<Byte>)
      requires Valid()
      modifies this
      ensures Valid() && received == old(received) + [chunk]
    {
      ConcatStep(received, chunk, cap);
      received := received + [chunk];
      var remaining := cap - downloaded;
      if remaining <= 0 {
        truncated := true;
      } else {
        var accepted := First(chunk, remaining);
        body := body + accepted;
        downloaded := downloaded + |accepted|;
        if |accepted| < |chunk| { truncated := true; }
      }
    }
  }

  /** Reading a stream to its end. */
  method ReadResponse(chunks: seq<seq<Byte>>, cap: nat) returns (body: Body)
    ensures Reads(chunks, cap, body)
  {
    var reader := new BodyReader(cap);
    for k := 0 to |chunks|
      invariant reader.Valid() && reader.cap == cap && reader.received == chunks[..k]
    {
      reader.OnData(chunks[k]);
    }
    assert chunks[..|chunks|] == chunks;
    body := Body(reader.body, reader.truncated);
  }

  lemma {:induction false} ConcatGrows<T>(chunks: seq<seq<T>>, k: nat)
    requires k <= |chunks|
    ensures Concat(chunks[..k]) <= Concat(chunks)
    ensures k < |chunks| ==> |Concat(chunks[..k])| + |chunks[k]| <= |Concat(chunks)|
    decreases |chunks|
  {
    if k == |chunks| {
      assert chunks[..k] == chunks;
    } else {
      var init := chunks[..|chunks| - 1];
      ConcatGrows(init, k);
      assert init[..k] == chunks[..k];
    }
  }

  /** With non-empty chunks, truncation is reported exactly when the stream exceeds the cap. */
  lemma TruncatedIffOverCap(chunks: seq<seq<Byte>>, cap: nat, body: Body)
    requires Reads(chunks, cap, body) && forall c | c in chunks :: c != []
    ensures body.bytes == First(Concat(chunks), cap)
    ensures body.truncated <==> |Concat(chunks)| > cap
  {
    forall k | 0 <= k < |chunks| && |Concat(chunks[..k])| >= cap ensures |Concat(chunks)| > cap {
      ConcatGrows(chunks, k);
      assert chunks[k] in chunks;
    }
  }

  /** For all chunkings, it is wrong exactly when an empty chunk follows a stream that ends at the cap. */
  lemma FalseAlarmIff(chunks: seq<seq<Byte>>, cap: nat, body: Body)
    requires Reads(chunks, cap, body)
    ensures (body.truncated <==> |Concat(chunks)| > cap)
        <==> !(|Concat(chunks)| == cap && chunks != [] && chunks[|chunks| - 1] == [])
  {
    var n := |chunks| - 1;
    if |Concat(chunks)| == cap && ArrivedLate(chunks, cap) {
      var k :| 0 <= k < |chunks| && |Concat(chunks[..k])| >= cap;
      ConcatGrows(chunks, k);
      ConcatGrows(chunks[..n], k);
      assert chunks[..n][..k] == chunks[..k];
    }
    if |Concat(chunks)| < cap && ArrivedLate(chunks, cap) {
      var k :| 0 <= k < |chunks| && |Concat(chunks[..k])| >= cap;
      ConcatGrows(chunks, k);
      assert false;
    }
  }

  /** For every cap: any stream that fills it and is followed by an empty chunk. */
  lemma EmptyChunkFalseAlarm(bytes: seq<Byte>, body: Body)
    requires Reads([bytes, []], |bytes|, body)
    ensures body == Body(bytes, true) && |Concat([bytes, []])| == |bytes|
  {
    var chunks: seq<seq<Byte>> := [bytes, []];
    assert chunks[..1] == [bytes] && chunks[..1][..0] == [];
    assert Concat(chunks[..1]) == [] + bytes;
    assert Concat(chunks) == bytes;
    assert |Concat(chunks[..1])| >= |bytes|;
  }

  // ----- collect -----

  const MARKER := "\n[truncated]"
  const STDERR_CAP := 16384

  datatype Capped = Capped(text: string, truncated: bool)

  function ByteCap(value: string, cap: nat): Capped {
    var buffer := Encode(value);
    if |buffer| <= cap then Capped(value, false) else Capped(Decode(buffer[..cap]) + MARKER, true)
  }

  /** What is left of a text over its cap: the characters whose bytes fit, U+FFFD if the cap falls
      inside the next one, and the marker. */
  lemma CapKeeps(value: string, cap: nat) returns (k: nat)
    requires |Encode(value)| > cap
    ensures k < |value| && |Encode(value[..k])| <= cap < |Encode(value[..k + 1])|
    ensures var cut := if |Encode(value[..k])| < cap then [REPLACEMENT] else "";
            ByteCap(value, cap) == Capped(value[..k] + cut + "\n[truncated]", true)
  {
    CutReads(value, cap);
    k := CutKeeps(value, cap);
  }

  lemma CapIsCut(value: string, cap: nat)
    requires |Encode(value)| > cap
    ensures ByteCap(value, cap) == Capped(Cut(value, cap) + MARKER, true)
  {
    CutReads(value, cap);
  }

  lemma CapAgain(a: string, rest: string, cap: nat)
    requires |Encode(a)| > cap && rest != ""
    ensures ByteCap(Cut(a, cap) + rest, cap) == Capped(Cut(a, cap) + MARKER, true)
  {
    EncodeAppend(Cut(a, cap), rest);
    CutLength(a, cap);
    CapIsCut(Cut(a, cap) + rest, cap);
    CutAgain(a, rest, cap);
  }

  lemma CapOfLonger(a: string, b: string, cap: nat)
    requires |Encode(a)| > cap
    ensures ByteCap(a + b, cap) == Capped(Cut(a, cap) + MARKER, true)
  {
    EncodeAppend(a, b);
    CapIsCut(a + b, cap);
    CutOfAppend(a, b, cap);
  }

  lemma CapWithin(value: string, cap: nat)
    requires |Encode(value)| <= cap
    ensures ByteCap(value, cap) == Capped(value, false)
  {}

  /** Capping text that was capped before, marker and all, is capping the whole. */
  lemma RecapIsCap(a: string, b: string, cap: nat)
    ensures ByteCap(ByteCap(a, cap).text + b, cap) == ByteCap(a + b, cap)
  {
    if |Encode(a)| <= cap {
      CapWithin(a, cap);
    } else {
      CapIsCut(a, cap);
      CapOfLonger(a, b, cap);
      CapAgain(a, MARKER + b, cap);
      Regroup(Cut(a, cap), MARKER, b);
    }
  }

  datatype Data = Out(chunk: seq<Byte>) | Err(chunk: seq<Byte>)

  /** The chunks of one stream in order. */
  function Chunks(events: seq<Data>, out: bool): seq<seq<Byte>> {
    if events == [] then []
    else
      var e := events[|events| - 1];
      Chunks(events[..|events| - 1], out) + if e.Out? == out then [e.chunk] else []
  }

  /** One stream as the source collects it: each chunk is turned into text by itself. */
  function Stream(events: seq<Data>, out: bool): string {
    DecodeEach(Chunks(events, out))
  }

  /** One stream as a whole turned into text. */
  function Written(events: seq<Data>, out: bool): string {
    Decode(Concat(Chunks(events, out)))
  }

  /** One cap of everything received on one stream. */
  function Whole(events: seq<Data>, out: bool, cap: nat): Capped {
    ByteCap(Stream(events, out), cap)
  }

  /** No chunk of the stream ends inside a character. */
  ghost predicate AllWellFormed(events: seq<Data>, out: bool) {
    forall c | c in Chunks(events, out) :: WellFormed(c)
  }

  lemma WholeStep(events: seq<Data>, e: Data, out: bool, cap: nat)
    ensures var before, after := Whole(events, out, cap), Whole(events + [e], out, cap);
            && (e.Out? != out ==> after == before)
            && (e.Out? == out ==> after == ByteCap(before.text + Decode(e.chunk), cap))
            && (before.truncated ==> after.truncated)
  {
    StreamStep(events, e, out);
    if e.Out? == out {
      RecapIsCap(Stream(events, out), Decode(e.chunk), cap);
      EncodeAppend(Stream(events, out), Decode(e.chunk));
    }
  }

  lemma StreamStep(events: seq<Data>, e: Data, out: bool)
    ensures Chunks(events + [e], out) == if e.Out? == out then Chunks(events, out) + [e.chunk] else Chunks(events, out)
    ensures Stream(events + [e], out) ==
            if e.Out? == out then Stream(events, out) + Decode(e.chunk) else Stream(events, out)
  {
    assert (events + [e])[..|events|] == events;
    var chunks := Chunks(events, out);
    if e.Out? == out {
      assert (chunks + [e.chunk])[..|chunks|] == chunks;
    } else {
      assert chunks + [] == chunks;
    }
  }

  function ErrCap(cap: nat): (limit: nat)
    ensures limit <= cap && limit <= 16384 && (limit == cap || limit == 16384)
  {
    if cap < STDERR_CAP then cap else STDERR_CAP
  }

  class ProcessOutput {
    const cap: nat
    const errCap: nat
    var stdout: string
    var stderr: string
    var truncated: bool
    ghost var events: seq<Data>

    /** The fields are what capping each whole stream once would give. */
    ghost predicate Valid()
      reads this
    {
      && errCap == ErrCap(cap)
      && stdout == Whole(events, true, cap).text
      && stderr == Whole(events, false, errCap).text
      && truncated == (Whole(events, true, cap).truncated || Whole(events, false, errCap).truncated)
    }

    constructor (cap: nat)
      ensures Valid() && this.cap == cap && events == []
    {
      this.cap := cap;
      this.errCap := ErrCap(cap);
      stdout, stderr, truncated, events := "", "", false, [];
    }

    method Collect(current: string, chunk: seq<Byte>, limit: nat) returns (text: string)
      modifies this`truncated
      ensures text == ByteCap(current + Decode(chunk), limit).text
      ensures truncated == (old(truncated) || ByteCap(current + Decode(chunk), limit).truncated)
    {
      var next := ByteCap(current + Decode(chunk), limit);
      truncated := truncated || next.truncated;
      text := next.text;
    }

    method OnData(e: Data)
      requires Valid()
      modifies this
      ensures Valid() && events == old(events) + [e]
    {
      WholeStep(events, e, true, cap);
      WholeStep(events, e, false, errCap);
      if e.Out? {
        stdout := Collect(stdout, e.chunk, cap);
      } else {
        stderr := Collect(stderr, e.chunk, errCap);
      }
      events := events + [e];
    }
  }

  method Collected(events: seq<Data>, cap: nat) returns (output: ProcessOutput)
    ensures fresh(output) && output.Valid() && output.cap == cap && output.events == events
  {
    output := new ProcessOutput(cap);
    for k := 0 to |events|
      invariant output.Valid() && output.cap == cap && output.events == events[..k]
    {
      output.OnData(events[k]);
      NextPrefix(events, k);
    }
    NextPrefix(events, |events|);
  }

  lemma NextPrefix(events: seq<Data>, k: nat)
    requires k <= |events|
    ensures if k < |events| then events[..k] + [events[k]] == events[..k + 1] else events[..k] == events
  {}

  /** The two texts, and truncation if either was cut. */
  predicate Caps(out: Capped, err: Capped, stdout: string, stderr: string, truncated: bool) {
    stdout == out.text && stderr == err.text && truncated == (out.truncated || err.truncated)
  }

  lemma WrittenComesOut(events: seq<Data>, cap: nat, stdout: string, stderr: string, truncated: bool)
    requires Caps(Whole(events, true, cap), Whole(events, false, ErrCap(cap)), stdout, stderr, truncated)
    ensures AllWellFormed(events, true) && AllWellFormed(events, false) ==>
            Caps(ByteCap(Written(events, true), cap), ByteCap(Written(events, false), ErrCap(cap)),
                 stdout, stderr, truncated)
  {
    if AllWellFormed(events, true) && AllWellFormed(events, false) {
      WellFormedComesOut(events, true, cap);
      WellFormedComesOut(events, false, ErrCap(cap));
    }
  }

  /** Any interleaving of any chunks of the two streams: each ends as one cap of its whole, of what was
      written if no chunk ends inside a character; truncation is reported exactly when one was over its cap. */
  method CollectAll(events: seq<Data>, cap: nat) returns (stdout: string, stderr: string, truncated: bool)
    ensures Caps(Whole(events, true, cap), Whole(events, false, ErrCap(cap)), stdout, stderr, truncated)
    ensures AllWellFormed(events, true) && AllWellFormed(events, false) ==>
            Caps(ByteCap(Written(events, true), cap), ByteCap(Written(events, false), ErrCap(cap)),
                 stdout, stderr, truncated)
  {
    var output := Collected(events, cap);
    stdout, stderr, truncated := output.stdout, output.stderr, output.truncated;
    WrittenComesOut(events, cap, stdout, stderr, truncated);
  }

  /** If no chunk ends inside a character, what comes out is one cap of the whole stream, for every cap. */
  lemma WellFormedComesOut(events: seq<Data>, out: bool, cap: nat)
    requires AllWellFormed(events, out)
    ensures Stream(events, out) == Written(events, out)
    ensures Whole(events, out, cap) == ByteCap(Written(events, out), cap)
  {
    EachReadsIff(Chunks(events, out));
    EncodeReads(DecodeEach(Chunks(events, out)));
  }

  /** Single-byte text comes out as one cap of the whole however it is cut into chunks. */
  lemma SingleByteTextComesOut(events: seq<Data>, out: bool, cap: nat)
    requires forall b | b in Concat(Chunks(events, out)) :: b < 0x80
    ensures AllWellFormed(events, out)
    ensures Whole(events, out, cap) == ByteCap(Written(events, out), cap)
  {
    SingleByteChunks(Chunks(events, out));
  }

  /** A stream that is the UTF-8 of a text comes out as that text, not truncated, exactly when it is within
      the cap and no chunk ends inside a character. */
  lemma TextComesOutIff(events: seq<Data>, out: bool, cap: nat, text: string)
    requires Concat(Chunks(events, out)) == Encode(text)
    ensures Whole(events, out, cap) == Capped(text, false) <==> |Encode(text)| <= cap && AllWellFormed(events, out)
  {
    ChunksReadIff(text, Chunks(events, out));
  }

  lemma OverCapComesOutIff(stream: string, text: string, cap: nat)
    requires |Encode(text)| > cap && |Encode(stream)| > cap
    ensures ByteCap(stream, cap) == ByteCap(text, cap) <==> Cut(stream, cap) == Cut(text, cap)
  {
    CapIsCut(stream, cap);
    CapIsCut(text, cap);
    var a, b := Cut(stream, cap), Cut(text, cap);
    if a + MARKER == b + MARKER {
      assert |a + MARKER| == |b + MARKER|;
      assert a == (a + MARKER)[..|a|] && b == (b + MARKER)[..|b|];
    }
  }

  /** For every cap, what comes out is one cap of the text exactly when no torn character shows: within the
      cap none is torn, or, over it, only U+FFFD follow a torn one within the cap. */
  lemma CapComesOutIff(events: seq<Data>, out: bool, cap: nat, text: string)
    requires Concat(Chunks(events, out)) == Encode(text)
    ensures Whole(events, out, cap) == ByteCap(text, cap) <==>
            if |Encode(text)| <= cap then Untorn(text, Chunks(events, out))
            else TearsUnnoticed(text, Chunks(events, out), cap)
  {
    var chunks := Chunks(events, out);
    if |Encode(text)| <= cap {
      WellFormedIffBetween(text, chunks);
      TextComesOutIff(events, out, cap, text);
    } else {
      EachNoShorter(chunks);
      OverCapComesOutIff(Stream(events, out), text, cap);
      FirstBytesComeOutIff(text, chunks, cap);
    }
  }

  /** For a text without U+FFFD: exactly when no character that lies whole within the cap is torn by the chunks. */
  lemma PlainCapComesOutIff(events: seq<Data>, out: bool, cap: nat, text: string)
    requires Concat(Chunks(events, out)) == Encode(text) && REPLACEMENT !in text
    ensures Whole(events, out, cap) == ByteCap(text, cap) <==>
            UntornWithin(text, Chunks(events, out), cap)
  {
    CapComesOutIff(events, out, cap, text);
    if |Encode(text)| <= cap {
      AllWithin(text, Chunks(events, out), cap);
    } else {
      PlainTearsNoticed(text, Chunks(events, out), cap);
    }
  }

  lemma HalvesRead()
    ensures Decode([0xC3]) == [REPLACEMENT] && Decode([0xA9]) == [REPLACEMENT]
    ensures Encode([0xE9 as char]) == [0xC3, 0xA9] && |Encode([REPLACEMENT])| == 3
  {
    var a, b: seq<Byte> := [0xC3], [0xA9];
    assert a[1..] == [] && b[1..] == [];
    EncodeFirst(0xE9 as char, "");
    EncodeFirst(REPLACEMENT, "");
  }

  lemma TwoMarks()
    ensures |Encode([REPLACEMENT, REPLACEMENT])| == 6
  {
    HalvesRead();
    EncodeAppend([REPLACEMENT], [REPLACEMENT]);
  }

  lemma ConcatTwo(a: seq<Byte>, b: seq<Byte>)
    ensures Concat([a, b]) == a + b
  {
    assert [a, b][..1] == [a] && [a][..0] == [];
    assert Concat([a]) == [] + a;
  }

  lemma TwoChunks(a: seq<Byte>, b: seq<Byte>)
    ensures Chunks([Out(a), Out(b)], true) == [a, b]
    ensures Stream([Out(a), Out(b)], true) == Decode(a) + Decode(b)
  {
    OneChunk(a);
    StreamStep([Out(a)], Out(b), true);
    assert [Out(a)] + [Out(b)] == [Out(a), Out(b)];
  }

  lemma OneChunk(a: seq<Byte>)
    ensures Chunks([Out(a)], true) == [a] && Stream([Out(a)], true) == Decode(a)
  {
    StreamStep([], Out(a), true);
    assert [] + [Out(a)] == [Out(a)];
  }

  /** A two-byte character in two chunks comes out as two marks; within six bytes it is even
      reported truncated, although two bytes were written. */
  lemma SplitCharacterComesOutWrong(cap: nat)
    ensures var events := [Out([0xC3]), Out([0xA9])];
            && Concat(Chunks(events, true)) == Encode([0xE9 as char])
            && Stream(events, true) == [REPLACEMENT, REPLACEMENT]
            && (Whole(events, true, cap).truncated <==> cap < 6)
  {
    TwoChunks([0xC3], [0xA9]);
    ConcatTwo([0xC3], [0xA9]);
    HalvesRead();
    TwoMarks();
  }
}
