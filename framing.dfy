/** The brace-balancing frame extractor of `recv_msg`: the stream carries JSON
    documents back to back with no length prefix or delimiter, and a document
    ends at the first '}' that brings the number of '}' up to the number of
    '{' seen since it began. Every brace counts, including one inside a quoted
    JSON string.

    `RecvOutcome` says what one call does, given the residual kept from the
    previous call and the chunks the transport will deliver; the lemmas below
    state what the source promises of it. The loop that does the counting in
    place is `ScanBraces`; the loop that reads chunks is `Session.RecvMsg`. */
module Framing {
  import opened Values

  /** Number of '{' in s. */
  function Opens(s: string): nat { multiset(s)['{'] }

  /** Number of '}' in s. */
  function Closes(s: string): nat { multiset(s)['}'] }

  /** s[..k] is the shortest non-empty prefix of s holding as many '}' as '{'. */
  predicate EndsFrame(s: string, k: nat)
  {
    1 <= k <= |s| && Opens(s[..k]) == Closes(s[..k]) &&
    forall j :: 1 <= j < k ==> Opens(s[..j]) != Closes(s[..j])
  }

  /** No non-empty prefix of s of length at most n is balanced. */
  predicate NoFrameUpTo(s: string, n: nat)
  {
    forall j :: 1 <= j <= n && j <= |s| ==> Opens(s[..j]) != Closes(s[..j])
  }

  /** Extending s by one character adds that character's brace to the counts. */
  lemma CountsStep(s: string, i: nat)
    requires i < |s|
    ensures Opens(s[..i+1]) == Opens(s[..i]) + (if s[i] == '{' then 1 else 0)
    ensures Closes(s[..i+1]) == Closes(s[..i]) + (if s[i] == '}' then 1 else 0)
  {
    assert s[..i+1] == s[..i] + [s[i]];
  }

  function ScanFrom(s: string, i: nat): (r: Option<nat>)
    requires i <= |s| && NoFrameUpTo(s, i)
    ensures r.Some? ==> EndsFrame(s, r.value)
    ensures r.None? ==> NoFrameUpTo(s, |s|)
    decreases |s| - i
  {
    if i == |s| then None
    else if Opens(s[..i+1]) == Closes(s[..i+1]) then Some(i + 1)
    else ScanFrom(s, i + 1)
  }

  /** The length of the first balanced prefix of s, if s has one. */
  function FrameEnd(s: string): (r: Option<nat>)
    ensures r.Some? ==> EndsFrame(s, r.value)
    ensures r.None? ==> NoFrameUpTo(s, |s|)
  {
    ScanFrom(s, 0)
  }

  /** FrameEnd finds exactly the prefix EndsFrame describes. */
  lemma FrameEndIs(s: string, k: nat)
    requires EndsFrame(s, k)
    ensures FrameEnd(s) == Some(k)
  {
  }

  lemma NoFrameEndIs(s: string)
    requires NoFrameUpTo(s, |s|)
    ensures FrameEnd(s) == None
  {
  }

  /** A frame found in a prefix of the stream is the frame of the whole
      stream: later characters cannot move its end. */
  lemma FrameEndOfExtension(s: string, t: string)
    requires FrameEnd(s).Some?
    ensures FrameEnd(s + t) == FrameEnd(s)
  {
    var k := FrameEnd(s).value;
    assert forall j :: 0 <= j <= |s| ==> (s + t)[..j] == s[..j];
    FrameEndIs(s + t, k);
  }

  /** A frame that starts with '{' ends with '}', and is longer than one
      character; before its end there are always more '{' than '}'. */
  lemma {:induction false} FrameShape(s: string)
    requires |s| > 0 && s[0] == '{' && FrameEnd(s).Some?
    ensures var k := FrameEnd(s).value; 2 <= k && s[k-1] == '}'
    ensures var k := FrameEnd(s).value;
      forall j :: 1 <= j < k ==> Opens(s[..j]) > Closes(s[..j])
  {
    var k := FrameEnd(s).value;
    var j := 1;
    assert s[..1] == ['{'];
    while j < k
      invariant 1 <= j <= k
      invariant forall m :: 1 <= m <= j && m < k ==> Opens(s[..m]) > Closes(s[..m])
    {
      CountsStep(s, j);
      j := j + 1;
    }
    CountsStep(s, k - 1);
  }

  /** Reading more data leaves the counts of what was already scanned as
      they were. */
  lemma ScanSurvivesAppend(data: string, more: string, n: nat)
    requires n <= |data| && NoFrameUpTo(data, n)
    ensures (data + more)[..n] == data[..n]
    ensures NoFrameUpTo(data + more, n)
  {
    assert forall j :: 0 <= j <= |data| ==> (data + more)[..j] == data[..j];
  }

  /** The state of the brace count in `recv_msg`: data[..i+1] has been
      scanned, it starts a frame that has not yet ended, and the counters hold
      its numbers of '{' and '}'. */
  predicate Scanned(data: string, i: nat, openCount: nat, closeCount: nat)
  {
    |data| > 0 && data[0] == '{' && i < |data| &&
    openCount == Opens(data[..i+1]) && closeCount == Closes(data[..i+1]) &&
    openCount > closeCount && NoFrameUpTo(data, i + 1)
  }

  /** Reading more data keeps the scan state. */
  lemma ScannedAfterAppend(data: string, more: string, i: nat, openCount: nat, closeCount: nat)
    requires Scanned(data, i, openCount, closeCount)
    ensures Scanned(data + more, i, openCount, closeCount)
  {
    ScanSurvivesAppend(data, more, i + 1);
  }

  /** Concatenation of the chunks a transport delivers. */
  function Concat(chunks: seq<string>): string
  {
    if chunks == [] then [] else chunks[0] + Concat(chunks[1..])
  }

  lemma {:induction false} ConcatAppend(a: seq<string>, b: seq<string>)
    ensures Concat(a + b) == Concat(a) + Concat(b)
  {
    if a == [] {
      assert a + b == b;
    } else {
      assert (a + b)[0] == a[0] && (a + b)[1..] == a[1..] + b;
      ConcatAppend(a[1..], b);
    }
  }

  /** rest is what remains of chunks after reading some chunks from its front. */
  predicate IsSuffix(rest: seq<string>, chunks: seq<string>)
  {
    |rest| <= |chunks| && rest == chunks[|chunks| - |rest|..]
  }

  /** The effect of one call: the frame or the error, the residual kept for
      the next call, and the chunks the transport has not yet delivered. */
  datatype Extraction = Extraction(doc: Result<string>, residual: string, rest: seq<string>)

  /** One call of the frame extractor, which starts with the residual
      `stored` and reads `chunks` one at a time while it needs more. `data`
      is the residual followed by what has been read so far. */
  function Gather(stored: string, data: string, chunks: seq<string>): (x: Extraction)
    // an error keeps the old residual, and a timeout has used every chunk
    ensures x.doc.Err? ==> x.residual == stored
    ensures x.doc == Err(Timeout) ==> x.rest == []
    decreases |chunks|
  {
    if data != [] && data[0] != '{' then
      Extraction(Err(Solstis(ReceivedDataInvalid)), stored, chunks)
    else if data != [] && FrameEnd(data).Some? then
      var k := FrameEnd(data).value;
      Extraction(Ok(data[..k]), data[k..], chunks)
    else if chunks == [] then
      Extraction(Err(Timeout), stored, [])
    else
      Gather(stored, data + chunks[0], chunks[1..])
  }

  /** `Gather` only ever takes chunks from the front. */
  lemma {:induction false} GatherKeeps(stored: string, data: string, chunks: seq<string>)
    ensures IsSuffix(Gather(stored, data, chunks).rest, chunks)
    decreases |chunks|
  {
    if data != [] && data[0] != '{' {
    } else if data != [] && FrameEnd(data).Some? {
    } else if chunks == [] {
    } else {
      GatherKeeps(stored, data + chunks[0], chunks[1..]);
      var rest := Gather(stored, data + chunks[0], chunks[1..]).rest;
      assert chunks[1..][|chunks[1..]| - |rest|..] == chunks[|chunks| - |rest|..];
    }
  }

  /** Nothing is lost or made up: a frame, the new residual and the unread
      chunks together are everything `Gather` was given. */
  lemma {:induction false} GatherConserves(stored: string, data: string, chunks: seq<string>)
    ensures var x := Gather(stored, data, chunks);
      x.doc.Ok? ==> x.doc.value + x.residual + Concat(x.rest) == data + Concat(chunks)
    decreases |chunks|
  {
    if data != [] && data[0] != '{' {
    } else if data != [] && FrameEnd(data).Some? {
      var k := FrameEnd(data).value;
      assert data == data[..k] + data[k..];
    } else if chunks == [] {
    } else {
      GatherConserves(stored, data + chunks[0], chunks[1..]);
      assert Concat(chunks) == chunks[0] + Concat(chunks[1..]);
    }
  }

  /** The steps of `Gather`, one lemma each, for the loop that performs them. */
  lemma GatherRejects(stored: string, data: string, chunks: seq<string>)
    requires data != [] && data[0] != '{'
    ensures Gather(stored, data, chunks) == Extraction(Err(Solstis(ReceivedDataInvalid)), stored, chunks)
  {
  }

  lemma GatherFinds(stored: string, data: string, chunks: seq<string>, k: nat)
    requires data != [] && data[0] == '{' && EndsFrame(data, k)
    ensures Gather(stored, data, chunks) == Extraction(Ok(data[..k]), data[k..], chunks)
  {
    FrameEndIs(data, k);
  }

  lemma GatherReads(stored: string, data: string, chunks: seq<string>)
    requires data == [] || (data[0] == '{' && NoFrameUpTo(data, |data|))
    ensures chunks == [] ==> Gather(stored, data, chunks) == Extraction(Err(Timeout), stored, [])
    ensures chunks != [] ==> Gather(stored, data, chunks) == Gather(stored, data + chunks[0], chunks[1..])
  {
    if data != [] {
      NoFrameEndIs(data);
    }
  }

  /** One call of `recv_msg`, up to the JSON decoding of the frame. A residual
      that does not start with '{' fails before anything is read. */
  function RecvOutcome(stored: string, chunks: seq<string>): (x: Extraction)
    // a residual that does not start a frame fails before any read
    ensures stored != [] && stored[0] != '{' ==>
      x == Extraction(Err(Solstis(StoredDataInvalid)), stored, chunks)
    ensures IsSuffix(x.rest, chunks)
    ensures x.doc.Err? ==> x.residual == stored
    ensures x.doc == Err(Timeout) ==> x.rest == []
    ensures x.doc.Ok? ==> x.doc.value + x.residual + Concat(x.rest) == stored + Concat(chunks)
    // a residual that already holds a whole frame is served without reading
    ensures stored != [] && stored[0] == '{' && FrameEnd(stored).Some? ==>
      x.rest == chunks && x.doc == Ok(stored[..FrameEnd(stored).value])
  {
    if stored != [] && stored[0] != '{' then
      Extraction(Err(Solstis(StoredDataInvalid)), stored, chunks)
    else
      GatherKeeps(stored, stored, chunks);
      GatherConserves(stored, stored, chunks);
      Gather(stored, stored, chunks)
  }

  /** Reference definition of the outcome of one call, in terms of the whole
      stream (residual followed by every chunk) and not of how it is split. */
  function Expected(stored: string, stream: string): Result<string>
  {
    if stored != [] && stored[0] != '{' then Err(Solstis(StoredDataInvalid))
    else if stream == [] then Err(Timeout)
    else if stream[0] != '{' then Err(Solstis(ReceivedDataInvalid))
    else match FrameEnd(stream)
      case Some(k) => Ok(stream[..k])
      case None => Err(Timeout)
  }

  lemma {:induction false} GatherMatchesReference(stored: string, data: string, chunks: seq<string>)
    requires stored == [] || stored[0] == '{'
    ensures Gather(stored, data, chunks).doc == Expected(stored, data + Concat(chunks))
    decreases |chunks|
  {
    var stream := data + Concat(chunks);
    if data != [] && data[0] != '{' {
      assert stream[0] == data[0];
    } else if data != [] && FrameEnd(data).Some? {
      FrameEndOfExtension(data, Concat(chunks));
      var k := FrameEnd(data).value;
      assert stream[..k] == data[..k];
    } else if chunks == [] {
      assert stream == data;
    } else {
      assert stream == (data + chunks[0]) + Concat(chunks[1..]);
      GatherMatchesReference(stored, data + chunks[0], chunks[1..]);
    }
  }

  /** The frame returned is the first balanced prefix of the stream, and the
      errors arise exactly as the reference definition says. */
  lemma OutcomeMatchesReference(stored: string, chunks: seq<string>)
    ensures RecvOutcome(stored, chunks).doc == Expected(stored, stored + Concat(chunks))
  {
    if stored == [] || stored[0] == '{' {
      GatherMatchesReference(stored, stored, chunks);
    }
  }

  /** A returned frame starts with '{', ends with '}', holds as many '{' as
      '}', and no shorter non-empty prefix of the stream does. */
  lemma ReturnedFrameIsShortestBalancedPrefix(stored: string, chunks: seq<string>)
    requires RecvOutcome(stored, chunks).doc.Ok?
    ensures var d := RecvOutcome(stored, chunks).doc.value;
      var stream := stored + Concat(chunks);
      |d| >= 2 && d[0] == '{' && d[|d|-1] == '}' && Opens(d) == Closes(d) &&
      d == stream[..|d|] &&
      forall j :: 1 <= j < |d| ==> Opens(stream[..j]) != Closes(stream[..j])
  {
    OutcomeMatchesReference(stored, chunks);
    var stream := stored + Concat(chunks);
    FrameShape(stream);
  }

  /** No characters are lost or duplicated: the frame followed by the new
      residual is the old residual followed by exactly the chunks read. */
  lemma NothingLostOrDuplicated(stored: string, chunks: seq<string>)
    requires RecvOutcome(stored, chunks).doc.Ok?
    ensures var x := RecvOutcome(stored, chunks);
      var read := chunks[..|chunks| - |x.rest|];
      chunks == read + x.rest &&
      x.doc.value + x.residual == stored + Concat(read)
  {
    var x := RecvOutcome(stored, chunks);
    var read := chunks[..|chunks| - |x.rest|];
    assert chunks == read + x.rest;
    ConcatAppend(read, x.rest);
    var lhs := x.doc.value + x.residual;
    var rhs := stored + Concat(read);
    assert lhs + Concat(x.rest) == rhs + Concat(x.rest);
    assert |lhs| == |rhs|;
    assert lhs == (lhs + Concat(x.rest))[..|lhs|];
    assert rhs == (rhs + Concat(x.rest))[..|rhs|];
  }

  /** After a successful call, the residual followed by the chunks not yet
      read is exactly the stream after the returned frame. */
  lemma RemainingStream(stored: string, chunks: seq<string>)
    requires RecvOutcome(stored, chunks).doc.Ok?
    ensures var x := RecvOutcome(stored, chunks);
      x.residual + Concat(x.rest) == (stored + Concat(chunks))[|x.doc.value|..]
  {
    var x := RecvOutcome(stored, chunks);
    var d, t := x.doc.value, x.residual + Concat(x.rest);
    assert d + t == stored + Concat(chunks);
    assert (d + t)[|d|..] == t;
  }

  /** Splitting the same stream differently into chunks changes neither the
      outcome nor, unless the data read was rejected, what remains of the
      stream for the next call. */
  lemma ChunkBoundaryIndependence(stored: string, chunks1: seq<string>, chunks2: seq<string>)
    requires Concat(chunks1) == Concat(chunks2)
    ensures RecvOutcome(stored, chunks1).doc == RecvOutcome(stored, chunks2).doc
    ensures var x1, x2 := RecvOutcome(stored, chunks1), RecvOutcome(stored, chunks2);
      x1.doc != Err(Solstis(ReceivedDataInvalid)) ==>
        x1.residual + Concat(x1.rest) == x2.residual + Concat(x2.rest)
  {
    OutcomeMatchesReference(stored, chunks1);
    OutcomeMatchesReference(stored, chunks2);
    var x1, x2 := RecvOutcome(stored, chunks1), RecvOutcome(stored, chunks2);
    if x1.doc.Ok? {
      RemainingStream(stored, chunks1);
      RemainingStream(stored, chunks2);
    }
  }

  /** Whether a call succeeds, and which document it returns, depends only
      on the stream, not on how much of it was already kept as a residual. */
  lemma ExpectedOfPrefix(stored: string, stream: string)
    requires |stored| <= |stream| && stream[..|stored|] == stored
    ensures Expected(stored, stream).Ok? <==> Expected([], stream).Ok?
    ensures Expected(stored, stream).Ok? ==> Expected(stored, stream) == Expected([], stream)
  {
    if stored != [] {
      assert stream[0] == stored[0];
    }
  }

  /** Two calls that see the same stream, split differently between residual
      and chunks, both succeed or both fail; when they succeed they return
      the same document and leave the same remaining stream. */
  lemma SameStreamSameOutcome(r1: string, c1: seq<string>, r2: string, c2: seq<string>)
    requires r1 + Concat(c1) == r2 + Concat(c2)
    ensures RecvOutcome(r1, c1).doc.Ok? <==> RecvOutcome(r2, c2).doc.Ok?
    ensures RecvOutcome(r1, c1).doc.Ok? ==>
      var x1, x2 := RecvOutcome(r1, c1), RecvOutcome(r2, c2);
      x1.doc == x2.doc && x1.residual + Concat(x1.rest) == x2.residual + Concat(x2.rest)
  {
    var stream := r1 + Concat(c1);
    OutcomeMatchesReference(r1, c1);
    OutcomeMatchesReference(r2, c2);
    assert stream[..|r1|] == r1;
    assert stream[..|r2|] == r2;
    ExpectedOfPrefix(r1, stream);
    ExpectedOfPrefix(r2, stream);
    if RecvOutcome(r1, c1).doc.Ok? {
      RemainingStream(r1, c1);
      RemainingStream(r2, c2);
    }
  }

  /** One call, seen on the whole stream: it succeeds exactly when the
      stream yields a document, returns that document, and leaves the rest of
      the stream for the next call. */
  lemma OutcomeOnStream(stored: string, chunks: seq<string>)
    ensures var x, stream := RecvOutcome(stored, chunks), stored + Concat(chunks);
      (x.doc.Ok? <==> Expected([], stream).Ok?) &&
      (x.doc.Ok? ==> x.doc == Expected([], stream) &&
                     x.residual + Concat(x.rest) == stream[|x.doc.value|..])
  {
    var stream := stored + Concat(chunks);
    OutcomeMatchesReference(stored, chunks);
    assert stream[..|stored|] == stored;
    ExpectedOfPrefix(stored, stream);
    if RecvOutcome(stored, chunks).doc.Ok? {
      RemainingStream(stored, chunks);
    }
  }

  /** After an error, how the stream was split can matter. Take the stream
      "{}\n{}{}" with a stray '\n' after its first document. When the '\n'
      arrives in the same read as that document, it sticks to the residual
      and every later call rejects it. */
  lemma StrayCharacterInSameRead()
    ensures RecvOutcome([], ["{}\n{}", "{}"]) == Extraction(Ok("{}"), "\n{}", ["{}"])
    ensures RecvOutcome("\n{}", ["{}"]) == Extraction(Err(Solstis(StoredDataInvalid)), "\n{}", ["{}"])
  {
    var s1 := "{}\n{}";
    assert s1[..1] == "{" && s1[..2] == "{}";
    GatherReads([], [], [s1, "{}"]);
    assert [] + s1 == s1 && [s1, "{}"][1..] == ["{}"];
    GatherFinds([], s1, ["{}"], 2);
    assert s1[..2] == "{}" && s1[2..] == "\n{}";
  }

  /** The same stream as in `StrayCharacterInSameRead`, but with the '\n'
      arriving in a read of its own: that read is rejected and dropped, and
      the next document is still received. */
  lemma StrayCharacterInOwnRead()
    ensures RecvOutcome([], ["{}", "\n{}", "{}"]) == Extraction(Ok("{}"), [], ["\n{}", "{}"])
    ensures RecvOutcome([], ["\n{}", "{}"]) == Extraction(Err(Solstis(ReceivedDataInvalid)), [], ["{}"])
    ensures RecvOutcome([], ["{}"]) == Extraction(Ok("{}"), [], [])
  {
    var s2, stray := "{}", "\n{}";
    assert s2[..1] == "{" && s2[..2] == s2 && s2[2..] == [];
    assert [] + s2 == s2 && [] + stray == stray;
    GatherReads([], [], [s2, stray, s2]);
    assert [s2, stray, s2][1..] == [stray, s2];
    GatherFinds([], s2, [stray, s2], 2);
    GatherReads([], [], [stray, s2]);
    assert [stray, s2][1..] == [s2];
    GatherRejects([], stray, [s2]);
    GatherReads([], [], [s2]);
    GatherFinds([], s2, [], 2);
  }

  /** Two documents delivered in one read come out of two successive calls,
      in order, the second one without reading anything. */
  lemma TwoDocumentsInOneRead(d1: string, d2: string, more: seq<string>)
    requires |d1| > 0 && d1[0] == '{' && FrameEnd(d1) == Some(|d1|)
    requires |d2| > 0 && d2[0] == '{' && FrameEnd(d2) == Some(|d2|)
    ensures RecvOutcome([], [d1 + d2] + more) == Extraction(Ok(d1), d2, more)
    ensures RecvOutcome(d2, more) == Extraction(Ok(d2), [], more)
  {
    var s := d1 + d2;
    FrameEndOfExtension(d1, d2);
    assert s[..|d1|] == d1 && s[|d1|..] == d2;
    var chunks := [s] + more;
    assert chunks[0] == s && chunks[1..] == more;
    assert [] + s == s;
    assert Gather([], s, more) == Extraction(Ok(d1), d2, more);
    assert Gather([], [], chunks) == Gather([], s, more);
    assert d2[..|d2|] == d2 && d2[|d2|..] == [];
    assert Gather(d2, d2, more) == Extraction(Ok(d2), [], more);
  }

  /** Braces inside quoted JSON strings count like any other: the frame
      ends at the quoted '}' below. */
  lemma QuotedBraceEndsFrame()
    ensures FrameEnd("{\"a\":\"}\"}") == Some(7)
  {
    var s := "{\"a\":\"}\"}";
    assert s[..0] == [];
    var j := 0;
    while j < 7
      invariant j <= 7
      invariant Opens(s[..j]) == (if j == 0 then 0 else 1)
      invariant Closes(s[..j]) == (if j < 7 then 0 else 1)
      invariant NoFrameUpTo(s, if j == 7 then 6 else j)
    {
      CountsStep(s, j);
      j := j + 1;
    }
    FrameEndIs(s, 7);
  }

  /** Counts the braces of data after position i0 until the first frame end,
      carrying the counters of `recv_msg`; i is the index of the last
      character examined. */
  method ScanBraces(data: string, i0: nat, open0: nat, close0: nat)
    returns (end: Option<nat>, i: nat, openCount: nat, closeCount: nat)
    requires i0 < |data|
    requires open0 == Opens(data[..i0+1]) && close0 == Closes(data[..i0+1])
    requires open0 > close0 && NoFrameUpTo(data, i0 + 1)
    ensures end.Some? ==> EndsFrame(data, end.value) && end.value == i + 1
    ensures end.None? ==>
      NoFrameUpTo(data, |data|) && i == |data| - 1 &&
      openCount == Opens(data) && closeCount == Closes(data) && openCount > closeCount
  {
    i, openCount, closeCount := i0, open0, close0;
    while i + 1 < |data|
      invariant i < |data|
      invariant openCount == Opens(data[..i+1]) && closeCount == Closes(data[..i+1])
      invariant openCount > closeCount && NoFrameUpTo(data, i + 1)
    {
      i := i + 1;
      CountsStep(data, i);
      if data[i] == '{' {
        openCount := openCount + 1;
      } else if data[i] == '}' {
        closeCount := closeCount + 1;
        if closeCount == openCount {
          return Some(i + 1), i, openCount, closeCount;
        }
      }
    }
    assert data[..i+1] == data;
    return None, i, openCount, closeCount;
  }
}
