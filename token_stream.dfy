// The token buffering inside `generate_response` (backend/routes/chat_rotues.py):
// streamed model chunks that look like numbers are held back and glued to what
// follows, so that "1", " ", "000" reach the client as one piece. Only the
// chunk contents are modelled; the JSON framing and the state snapshot sent
// with each piece are not.

module TokenStream {

  /** Python's `str.isspace` for one character. */
  predicate IsSpace(c: char)
  {
    c == ' ' || ('\t' <= c <= '\r') || ('\U{1c}' <= c <= '\U{1f}') || c == '\U{85}' || c == '\U{a0}'
    || c == '\U{1680}' || ('\U{2000}' <= c <= '\U{200a}') || c == '\U{2028}' || c == '\U{2029}'
    || c == '\U{202f}' || c == '\U{205f}' || c == '\U{3000}'
  }

  predicate IsDigit(c: char)
  {
    '0' <= c <= '9'
  }

  function StripLeft(s: string): string
  {
    if s != [] && IsSpace(s[0]) then StripLeft(s[1..]) else s
  }

  function StripRight(s: string): string
  {
    if s != [] && IsSpace(s[|s| - 1]) then StripRight(s[..|s| - 1]) else s
  }

  /** `s.strip()`: leading and trailing whitespace removed. */
  function Strip(s: string): string
  {
    StripRight(StripLeft(s))
  }

  /** Stripping on the left drops a run of leading whitespace and stops at the first other character. */
  lemma {:induction false} StripLeftFacts(s: string)
    ensures StripLeft(s) == [] || !IsSpace(StripLeft(s)[0])
    ensures exists n :: 0 <= n <= |s| && StripLeft(s) == s[n..] && forall i :: 0 <= i < n ==> IsSpace(s[i])
  {
    if s != [] && IsSpace(s[0]) {
      StripLeftFacts(s[1..]);
      var n :| 0 <= n <= |s[1..]| && StripLeft(s[1..]) == s[1..][n..] && forall i :: 0 <= i < n ==> IsSpace(s[1..][i]);
      assert StripLeft(s) == s[n + 1..];
      assert forall i :: 0 <= i < n + 1 ==> IsSpace(s[i]) by {
        forall i | 0 <= i < n + 1 ensures IsSpace(s[i]) {
          if i > 0 { assert s[i] == s[1..][i - 1]; }
        }
      }
    } else {
      assert s == s[0..];
    }
  }

  /** Stripping on the right drops a run of trailing whitespace and stops at the last other character. */
  lemma {:induction false} StripRightFacts(s: string)
    ensures StripRight(s) == [] || !IsSpace(StripRight(s)[|StripRight(s)| - 1])
    ensures exists n :: 0 <= n <= |s| && StripRight(s) == s[..n] && forall i :: n <= i < |s| ==> IsSpace(s[i])
  {
    if s != [] && IsSpace(s[|s| - 1]) {
      var init := s[..|s| - 1];
      StripRightFacts(init);
      var n :| 0 <= n <= |init| && StripRight(init) == init[..n] && forall i :: n <= i < |init| ==> IsSpace(init[i]);
      assert StripRight(s) == s[..n];
      assert forall i :: n <= i < |s| ==> IsSpace(s[i]) by {
        forall i | n <= i < |s| ensures IsSpace(s[i]) {
          if i < |s| - 1 { assert s[i] == init[i]; }
        }
      }
    } else {
      assert s == s[..|s|];
    }
  }

  /** `s.strip()` is the slice `s[n..m]`, with only whitespace around it. */
  lemma StripKeepsMiddle(s: string) returns (n: nat, m: nat)
    ensures n <= m <= |s| && Strip(s) == s[n..m]
    ensures forall i :: 0 <= i < n ==> IsSpace(s[i])
    ensures forall i :: m <= i < |s| ==> IsSpace(s[i])
  {
    n := LeadingCut(s);
    var l := s[n..];
    var k := TrailingCut(l);
    m := n + k;
    assert Strip(s) == StripRight(l) == l[..k];
    assert l[..k] == s[n..m];
    forall i | m <= i < |s| ensures IsSpace(s[i]) {
      assert s[i] == l[i - n];
    }
  }

  /** Where `StripLeft` starts, with only whitespace before it. */
  lemma LeadingCut(s: string) returns (n: nat)
    ensures n <= |s| && StripLeft(s) == s[n..]
    ensures forall i :: 0 <= i < n ==> IsSpace(s[i])
  {
    StripLeftFacts(s);
    n :| 0 <= n <= |s| && StripLeft(s) == s[n..] && forall i :: 0 <= i < n ==> IsSpace(s[i]);
  }

  /** The length `StripRight` keeps, with only whitespace after it. */
  lemma TrailingCut(l: string) returns (k: nat)
    ensures k <= |l| && StripRight(l) == l[..k]
    ensures forall i :: k <= i < |l| ==> IsSpace(l[i])
  {
    StripRightFacts(l);
    k :| 0 <= k <= |l| && StripRight(l) == l[..k] && forall i :: k <= i < |l| ==> IsSpace(l[i]);
  }

  /** `is_numeric`: the stripped chunk matches `^[\d ]+$`. So a numeric chunk is made of
      digits and whitespace, and a chunk of digits and spaces with at least one digit
      is numeric. */
  predicate IsNumeric(s: string): (b: bool)
    ensures b ==> forall i :: 0 <= i < |s| ==> IsDigit(s[i]) || IsSpace(s[i])
    ensures (forall i :: 0 <= i < |s| ==> IsDigit(s[i]) || s[i] == ' ') && (exists i :: 0 <= i < |s| && IsDigit(s[i])) ==> b
  {
    var t := Strip(s);
    assert (|t| > 0 && forall i :: 0 <= i < |t| ==> IsDigit(t[i]) || t[i] == ' ') ==>
             forall i :: 0 <= i < |s| ==> IsDigit(s[i]) || IsSpace(s[i]) by {
      var n, m := StripKeepsMiddle(s);
      forall i | n <= i < m ensures s[i] == t[i - n] {}
    }
    assert (forall i :: 0 <= i < |s| ==> IsDigit(s[i]) || s[i] == ' ') && (exists i :: 0 <= i < |s| && IsDigit(s[i])) ==>
             |t| > 0 && forall i :: 0 <= i < |t| ==> IsDigit(t[i]) || t[i] == ' ' by {
      var n, m := StripKeepsMiddle(s);
      if exists i :: 0 <= i < |s| && IsDigit(s[i]) {
        var d :| 0 <= d < |s| && IsDigit(s[d]);
        assert n <= d < m;
      }
      forall i | 0 <= i < |t| ensures t[i] == s[n + i] {}
    }
    |t| > 0 && forall i :: 0 <= i < |t| ==> IsDigit(t[i]) || t[i] == ' '
  }

  /** The chunks that join a non-empty buffer even though they are not numeric. */
  predicate IsSeparator(chunk: string)
  {
    chunk == " " || chunk == "," || chunk == "."
  }

  /** What the loop keeps between chunks: the pieces sent so far and the held-back text. */
  datatype StreamState = StreamState(emitted: seq<string>, buffer: string)

  /** One `on_chat_model_stream` event: hold the chunk back, or send it with whatever was held. */
  function Advance(st: StreamState, chunk: string): (r: StreamState)
    ensures IsNumeric(chunk) || (st.buffer != "" && IsSeparator(chunk)) ==>
              r == StreamState(st.emitted, st.buffer + chunk)
    ensures !(IsNumeric(chunk) || (st.buffer != "" && IsSeparator(chunk))) ==>
              r == StreamState(st.emitted + [st.buffer + chunk], "")
  {
    if IsNumeric(chunk) || (st.buffer != "" && IsSeparator(chunk)) then
      StreamState(st.emitted, st.buffer + chunk)
    else if st.buffer != "" then
      StreamState(st.emitted + [st.buffer + chunk], "")
    else
      assert st.buffer + chunk == chunk;
      StreamState(st.emitted + [chunk], "")
  }

  /** The state after a sequence of chunks, starting from nothing sent and an empty buffer. */
  function Run(chunks: seq<string>): StreamState
  {
    if chunks == [] then StreamState([], "")
    else Advance(Run(chunks[..|chunks| - 1]), chunks[|chunks| - 1])
  }

  function Concat(pieces: seq<string>): string
  {
    if pieces == [] then "" else Concat(pieces[..|pieces| - 1]) + pieces[|pieces| - 1]
  }

  /** The buffering loop over the streamed chunk contents. */
  method BufferTokens(chunks: seq<string>) returns (emitted: seq<string>, buffer: string)
    ensures StreamState(emitted, buffer) == Run(chunks)
    ensures Concat(emitted) + buffer == Concat(chunks)
  {
    emitted := [];
    buffer := "";
    var i := 0;
    while i < |chunks|
      invariant 0 <= i <= |chunks|
      invariant StreamState(emitted, buffer) == Run(chunks[..i])
    {
      var chunk := chunks[i];
      if IsNumeric(chunk) || (buffer != "" && IsSeparator(chunk)) {
        buffer := buffer + chunk;
      } else {
        if buffer != "" {
          var combined := buffer + chunk;
          emitted := emitted + [combined];
          buffer := "";
        } else {
          emitted := emitted + [chunk];
        }
      }
      assert chunks[..i + 1][..i] == chunks[..i];
      i := i + 1;
    }
    assert chunks[..|chunks|] == chunks;
    RunPreservesText(chunks);
  }

  // ---------------------------------------------------------------------
  // Properties

  lemma {:induction false} ConcatAppend(a: seq<string>, b: seq<string>)
    ensures Concat(a + b) == Concat(a) + Concat(b)
  {
    if b != [] {
      ConcatAppend(a, b[..|b| - 1]);
      assert (a + b)[..|a + b| - 1] == a + b[..|b| - 1];
    } else {
      assert a + b == a;
    }
  }

  /** Nothing is lost or reordered: what was sent, followed by what is held back,
      is everything received. */
  lemma {:induction false} RunPreservesText(chunks: seq<string>)
    ensures Concat(Run(chunks).emitted) + Run(chunks).buffer == Concat(chunks)
  {
    if chunks != [] {
      var n := |chunks| - 1;
      RunPreservesText(chunks[..n]);
      var st := Run(chunks[..n]);
      if !(IsNumeric(chunks[n]) || (st.buffer != "" && IsSeparator(chunks[n]))) {
        ConcatAppend(st.emitted, [st.buffer + chunks[n]]);
        assert Concat([st.buffer + chunks[n]]) == st.buffer + chunks[n] by {
          assert [st.buffer + chunks[n]][..0] == [];
        }
      }
    }
  }

  /** Text is held back only from a numeric chunk on: a non-empty buffer is all the
      chunks from some numeric chunk to the end. */
  lemma {:induction false} BufferStartsNumeric(chunks: seq<string>)
    ensures Run(chunks).buffer != "" ==>
              exists j :: 0 <= j < |chunks| && IsNumeric(chunks[j]) && Run(chunks).buffer == Concat(chunks[j..])
  {
    if chunks != [] {
      var n := |chunks| - 1;
      BufferStartsNumeric(chunks[..n]);
      var st := Run(chunks[..n]);
      if Run(chunks).buffer != "" {
        if st.buffer == "" {
          assert IsNumeric(chunks[n]);
          assert chunks[n..] == [chunks[n]] && [chunks[n]][..0] == [];
          assert Concat(chunks[n..]) == chunks[n];
          assert Run(chunks).buffer == chunks[n];
        } else {
          var j :| 0 <= j < n && IsNumeric(chunks[..n][j]) && st.buffer == Concat(chunks[..n][j..]);
          assert chunks[j..][..|chunks[j..]| - 1] == chunks[..n][j..];
          assert chunks[..n][j] == chunks[j];
        }
      }
    }
  }

  /** At most one piece is sent per chunk received. */
  lemma {:induction false} EmissionsBounded(chunks: seq<string>)
    ensures |Run(chunks).emitted| <= |chunks|
  {
    if chunks != [] {
      EmissionsBounded(chunks[..|chunks| - 1]);
    }
  }

  /** A stream with no numeric chunk is forwarded chunk by chunk, unchanged. */
  lemma {:induction false} NoNumbersPassThrough(chunks: seq<string>)
    requires forall i :: 0 <= i < |chunks| ==> !IsNumeric(chunks[i])
    ensures Run(chunks) == StreamState(chunks, "")
  {
    if chunks != [] {
      var n := |chunks| - 1;
      var init, last := chunks[..n], chunks[n];
      assert init + [last] == chunks;
      assert forall i :: 0 <= i < |init| ==> !IsNumeric(init[i]) by {
        forall i | 0 <= i < |init| ensures !IsNumeric(init[i]) {
          assert init[i] == chunks[i];
        }
      }
      NoNumbersPassThrough(init);
      assert !IsNumeric(last);
      ForwardedAsIs(StreamState(init, ""), last);
      RunSnoc(init, last);
      assert Run(chunks) == Advance(StreamState(init, ""), last);
    }
  }

  /** With nothing held back, a chunk that is not numeric is sent as it is. */
  lemma ForwardedAsIs(st: StreamState, chunk: string)
    requires st.buffer == "" && !IsNumeric(chunk)
    ensures Advance(st, chunk) == StreamState(st.emitted + [chunk], "")
  {
    assert st.buffer + chunk == chunk;
  }

  /** A number split over several chunks reaches the client as one piece: a numeric
      chunk, a separator, another numeric chunk and then ordinary text are sent
      together once the text arrives. */
  lemma NumberIsGlued(a: string, sep: string, b: string, text: string)
    requires IsNumeric(a) && IsSeparator(sep) && IsNumeric(b)
    requires !IsNumeric(text) && !IsSeparator(text)
    ensures Run([a, sep, b, text]) == StreamState([a + sep + b + text], "")
  {
    NumericHasDigit(a);
    RunSnoc([], a);
    assert [] + [a] == [a];
    assert Run([a]) == StreamState([], a);
    RunSnoc([a], sep);
    assert [a] + [sep] == [a, sep];
    RunSnoc([a, sep], b);
    assert [a, sep] + [b] == [a, sep, b];
    RunSnoc([a, sep, b], text);
    assert [a, sep, b] + [text] == [a, sep, b, text];
  }

  /** For instance `"1", " ", "000", " euros"` is sent as `"1 000 euros"`. */
  lemma GluedChunks()
    ensures IsNumeric("1") && IsNumeric("000") && IsSeparator(" ")
    ensures !IsNumeric(" euros") && !IsSeparator(" euros")
    ensures Run(["1", " ", "000", " euros"]) == StreamState(["1 000 euros"], "")
  {
    assert Strip("1") == "1";
    assert Strip("000") == "000";
    assert StripLeft(" euros") == "euros";
    assert StripRight("euros") == "euros";
    NumberIsGlued("1", " ", "000", " euros");
    assert "1" + " " + "000" + " euros" == "1 000 euros";
  }

  /** One more chunk is one more step. */
  lemma RunSnoc(chunks: seq<string>, chunk: string)
    ensures Run(chunks + [chunk]) == Advance(Run(chunks), chunk)
  {
    assert (chunks + [chunk])[..|chunks|] == chunks;
  }

  /** The buffer is not flushed when the stream ends: when the last chunk is numeric,
      nothing more is sent and the chunk stays held back. */
  lemma TrailingNumberDropped(chunks: seq<string>, last: string)
    requires IsNumeric(last)
    ensures Run(chunks + [last]).emitted == Run(chunks).emitted
    ensures Run(chunks + [last]).buffer == Run(chunks).buffer + last != ""
  {
    NumericHasDigit(last);
    RunSnoc(chunks, last);
  }

  /** A numeric chunk always holds a digit (stripping removes the spaces at its ends),
      so whitespace alone is never numeric. */
  lemma NumericHasDigit(s: string)
    requires IsNumeric(s)
    ensures exists i :: 0 <= i < |s| && IsDigit(s[i])
  {
    var l := StripLeft(s);
    var t := Strip(s);
    StripLeftFacts(s);
    StripRightFacts(l);
    var n :| 0 <= n <= |s| && l == s[n..] && forall i :: 0 <= i < n ==> IsSpace(s[i]);
    assert t[0] == l[0] == s[n];
    assert IsDigit(s[n]);
  }
}
