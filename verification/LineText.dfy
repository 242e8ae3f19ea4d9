/** Lines of a text that arrives in chunks: what one call of the line reader delivers, when the
    last character is lost, and when a line overruns its buffer. */
module LineText {

  const LINE_MAX_SIZE := 4096

  // ----- text

  /** Length of the part before the first newline. */
  function Span(s: string): (n: nat)
    ensures n <= |s| && (forall i | 0 <= i < n :: s[i] != '\n') && (n < |s| ==> s[n] == '\n')
  {
    if s == "" || s[0] == '\n' then 0 else 1 + Span(s[1..])
  }

  /** Number of leading newlines. */
  function Newlines(s: string): (n: nat)
    ensures n <= |s| && (forall i | 0 <= i < n :: s[i] == '\n') && (n < |s| ==> s[n] != '\n')
  {
    if s == "" || s[0] != '\n' then 0 else 1 + Newlines(s[1..])
  }

  /** The lines of a text; an unterminated rest counts as a line. */
  function Lines(s: string): seq<string>
    decreases |s|
  {
    if s == "" then []
    else if Span(s) < |s| then [s[..Span(s)]] + Lines(s[Span(s) + 1..])
    else [s]
  }

  /** The line, unless it is empty. */
  function Kept(line: string): seq<string> {
    if line == "" then [] else [line]
  }

  function NonEmpty(lines: seq<string>): seq<string> {
    if lines == [] then [] else Kept(lines[0]) + NonEmpty(lines[1..])
  }

  /** Lines written one after the other, each with its newline. */
  function Written(lines: seq<string>): string {
    if lines == [] then "" else lines[0] + "\n" + Written(lines[1..])
  }

  /** Writing the lines of a text gives the text back, with a newline where it lacked the last. */
  lemma {:induction false} LinesWritten(s: string)
    ensures Written(Lines(s)) == if s == "" || s[|s| - 1] == '\n' then s else s + "\n"
    ensures forall i | 0 <= i < |Lines(s)| :: '\n' !in Lines(s)[i]
    decreases |s|
  {
    if s != "" && Span(s) < |s| {
      var first, rest := s[..Span(s)], s[Span(s) + 1..];
      LinesWritten(rest);
      hide Span, Lines;
      LinesStep(s);
      assert Lines(s)[1..] == Lines(rest);
      assert s == first + "\n" + rest;
    } else {
      LastOfLines(s);
    }
  }

  lemma LastOfLines(s: string)
    requires s == "" || Span(s) == |s|
    ensures Lines(s) == if s == "" then [] else [s]
  {
    hide Span;
  }

  /** Leaving out empty lines leaves all others, in order. */
  lemma {:induction false} NonEmptyConcat(a: seq<string>, b: seq<string>, line: string)
    ensures NonEmpty(a + b) == NonEmpty(a) + NonEmpty(b)
    ensures NonEmpty([""]) == [] && (line != "" ==> NonEmpty([line]) == [line])
    decreases |a|
  {
    if a == [] {
      assert a + b == b;
    } else {
      assert (a + b)[1..] == a[1..] + b;
      NonEmptyConcat(a[1..], b, line);
    }
  }

  function Flatten(chunks: seq<string>): string {
    if chunks == [] then "" else chunks[0] + Flatten(chunks[1..])
  }

  /** The file as the system returns it: non-empty pieces that fit the buffer. */
  predicate Pieces(chunks: seq<string>) {
    forall i | 0 <= i < |chunks| :: 0 < |chunks[i]| <= LINE_MAX_SIZE
  }

  /** The text is empty or ends with a newline. */
  predicate Terminated(s: string) {
    s != "" ==> s[|s| - 1] == '\n'
  }

  // ----- when the last character is lost

  /** The text ends with a line that is not empty. */
  predicate EndsLine(s: string) {
    |s| >= 2 && s[|s| - 1] == '\n' && s[|s| - 2] != '\n'
  }

  /** Whether the read that follows the text `first` comes at the start of a call, and not
      while a line is being put together. At the start of a call newlines are skipped; if
      `first` itself was read within a call, they are not. */
  predicate CleanAfter(atStart: bool, first: string) {
    if atStart then EndsLine(first)
    else Span(first) < |first| && (Span(first) + 1 == |first| || EndsLine(first[Span(first) + 1..]))
  }

  /** The last chunk is a lone character, not a newline, and is read within a call. `clean`
      says whether the first chunk is read at the start of a call. */
  predicate LastLost(clean: bool, chunks: seq<string>)
    decreases |chunks|
  {
    if chunks == [] then false
    else if |chunks| == 1 then !clean && |chunks[0]| == 1 && chunks[0] != "\n"
    else LastLost(CleanAfter(clean, chunks[0]), chunks[1..])
  }

  /** What the reader makes of a text. */
  function Seen(text: string, lost: bool): string {
    if lost && text != "" then text[..|text| - 1] else text
  }

  lemma {:induction false} LostIsUnterminated(clean: bool, chunks: seq<string>)
    requires Pieces(chunks) && LastLost(clean, chunks)
    ensures !Terminated(Flatten(chunks))
    decreases |chunks|
  {
    if |chunks| == 1 {
      assert Flatten(chunks) == chunks[0];
    } else {
      LostIsUnterminated(CleanAfter(clean, chunks[0]), chunks[1..]);
      var rest := Flatten(chunks[1..]);
      assert (chunks[0] + rest)[|chunks[0] + rest| - 1] == rest[|rest| - 1];
    }
  }

  /** A read at the start of a call. */
  lemma ReadAtStart(chunks: seq<string>)
    ensures LastLost(true, chunks) == (chunks != [] && LastLost(CleanAfter(true, chunks[0]), chunks[1..]))
  {
  }

  /** A read within a call is the first one of a nested call. */
  lemma ReadWithin(chunks: seq<string>)
    requires Pieces(chunks)
    ensures var rest, nested := Flatten(chunks), chunks != [] && LastLost(CleanAfter(false, chunks[0]), chunks[1..]);
            && (rest == "" ==> !LastLost(false, chunks))
            && (Span(rest) < |rest| ==> LastLost(false, chunks) == nested)
            && (rest != "" && Span(rest) == |rest| ==> LastLost(false, chunks) == (nested || |rest| == 1))
  {
    hide CleanAfter;
    FlattenSize(chunks);
  }

  /** Where the reader stands once it has taken a line from `s`, or all of it. */
  lemma AfterTaking(s: string, chunks: seq<string>)
    ensures var lost := LastLost(CleanAfter(false, s), chunks);
            if Span(s) == |s| then lost == LastLost(false, chunks)
            else var t := s[Span(s) + 1..]; lost == LastLost(if t == "" then true else CleanAfter(true, t), chunks)
  {
  }

  /** A first line that is not empty makes no difference to how a text ends. */
  lemma LineFirst(t: string)
    requires t == "" || t[0] != '\n'
    ensures CleanAfter(false, t) <==> EndsLine(t)
  {
    var n := Span(t);
    hide Span;
    if n < |t| {
      var u := t[n + 1..];
      assert u != "" ==> u[|u| - 1] == t[|t| - 1];
      assert |u| >= 2 ==> u[|u| - 2] == t[|t| - 2];
    } else {
      assert t != "" ==> t[|t| - 1] != '\n';
    }
  }

  /** Nor do leading newlines. */
  lemma NewlinesFirst(s: string, k: nat)
    requires k <= |s| && forall i | 0 <= i < k :: s[i] == '\n'
    ensures EndsLine(s) <==> EndsLine(s[k..])
  {
    var t := s[k..];
    assert t != "" ==> t[|t| - 1] == s[|s| - 1];
    assert |t| >= 2 ==> t[|t| - 2] == s[|s| - 2];
  }

  /** Skipping leading newlines leaves the text as if read within a call. */
  lemma AfterSkipping(s: string)
    ensures CleanAfter(true, s) == CleanAfter(false, s[Newlines(s)..])
  {
    hide Span, Newlines, EndsLine;
    NewlinesFirst(s, Newlines(s));
    LineFirst(s[Newlines(s)..]);
  }

  // ----- when a line overruns its buffer

  /** How a call ends: as it should, by ending the program over a line that is too long, or by
      writing past the end of a line buffer, after which nothing is promised. */
  datatype Outcome = Fine | TooLong | Overrun

  /** What follows one of the reads is one character longer than a line may be. */
  predicate ReadEdge(chunks: seq<string>) {
    chunks != [] && (|Flatten(chunks)| == LINE_MAX_SIZE + 1 || ReadEdge(chunks[1..]))
  }

  /** The length of an unterminated rest `r` is taken for one less than it is. So a rest that is
      one character too long passes the test, be it the whole rest, for the caller's buffer, or
      what is left of it at a read within the call, for the buffer of a nested call. */
  predicate Overflows(r: string, lost: bool, edge: bool) {
    Span(r) == |r| && !lost && (|r| == LINE_MAX_SIZE + 1 || (|r| > LINE_MAX_SIZE + 1 && edge))
  }

  lemma {:induction false} EdgeIsLong(chunks: seq<string>)
    ensures ReadEdge(chunks) ==> |Flatten(chunks)| > LINE_MAX_SIZE
    ensures chunks != [] && |Flatten(chunks)| == LINE_MAX_SIZE + 1 ==> ReadEdge(chunks)
  {
    if chunks != [] {
      EdgeIsLong(chunks[1..]);
    }
  }

  // ----- what one call delivers

  lemma SpanIs(s: string, n: nat)
    requires n <= |s| && (forall i | 0 <= i < n :: s[i] != '\n') && (n < |s| ==> s[n] == '\n')
    ensures Span(s) == n
  {
  }

  /** A newline in the first part decides the line. */
  lemma LineInFirst(a: string, b: string)
    requires Span(a) < |a|
    ensures Span(a + b) == Span(a)
    ensures (a + b)[..Span(a)] == a[..Span(a)]
    ensures (a + b)[Span(a) + 1..] == a[Span(a) + 1..] + b
  {
    hide Span;
    SpanIs(a + b, Span(a));
  }

  /** Without one the line goes on into the second part. */
  lemma LineInSecond(a: string, b: string)
    requires Span(a) == |a|
    ensures Span(a + b) == |a| + Span(b)
    ensures (a + b)[..|a| + Span(b)] == a + b[..Span(b)]
    ensures Span(b) < |b| ==> (a + b)[|a| + Span(b) + 1..] == b[Span(b) + 1..]
    ensures b != "" ==> (a + b)[..|a + b| - 1] == a + b[..|b| - 1]
  {
    hide Span;
    forall i | 0 <= i < |a| + Span(b) ensures (a + b)[i] != '\n' {
      assert (a + b)[i] == if i < |a| then a[i] else b[i - |a|];
    }
    SpanIs(a + b, |a| + Span(b));
  }

  lemma SpanOfJoined(a: string, b: string)
    requires Span(a) == |a|
    ensures Span(a + b) == |a| + Span(b)
  {
    LineInSecond(a, b);
  }

  lemma FlattenSize(chunks: seq<string>)
    requires forall i | 0 <= i < |chunks| :: 0 < |chunks[i]|
    ensures |Flatten(chunks)| >= |chunks|
    ensures chunks != [] ==> |Flatten(chunks)| >= |chunks| - 1 + |chunks[|chunks| - 1]|
    ensures |chunks| == 1 ==> Flatten(chunks) == chunks[0]
    ensures chunks == [] ==> Flatten(chunks) == ""
  {
  }

  /** What one call gives for the text `r`, where `after` is left to be read. At the end of the
      text the length is -1. On an unterminated rest the length is one too small, the last
      character may be lost, and the line may overrun its buffer. A length over the maximum ends
      the program. */
  ghost predicate Delivered(r: string, lost: bool, edge: bool, line: string, len: int, outcome: Outcome,
                            after: string) {
    if Overflows(r, lost, edge) then outcome == Overrun
    else
      && outcome == (if len > LINE_MAX_SIZE then TooLong else Fine)
      && (r == "" ==> len == -1 && line == "" && after == "")
      && (Span(r) < |r| ==> len == Span(r) && (outcome.Fine? ==> line == r[..Span(r)] && after == r[Span(r) + 1..]))
      && (r != "" && Span(r) == |r| ==> len == |r| - 1 && (outcome.Fine? ==> after == "" && line == Seen(r, lost)))
  }

  lemma NothingLeft(lost: bool, edge: bool)
    ensures Flatten([]) == "" && Delivered("", lost, edge, "", -1, Fine, "")
  {
  }

  /** Edges matter only to a long rest. */
  lemma SameEdge(r: string, lost: bool, e: bool, f: bool, line: string, len: int, outcome: Outcome, after: string)
    requires Delivered(r, lost, e, line, len, outcome, after) && (|r| > LINE_MAX_SIZE + 1 ==> e == f)
    ensures Delivered(r, lost, f, line, len, outcome, after)
    ensures Span(r) < |r| && outcome.Fine? ==> |after| < |r|
  {
  }

  /** A line that ends in the buffer. */
  lemma LineInBuffer(a: string, b: string, lost: bool, edge: bool)
    requires Span(a) < |a| <= LINE_MAX_SIZE
    ensures Delivered(a + b, lost, edge, a[..Span(a)], Span(a), Fine, a[Span(a) + 1..] + b)
  {
    LineInFirst(a, b);
  }

  /** How a call ends that puts `a` in front of what a nested call has delivered. */
  function Joined(a: string, line: string, len: int, outcome: Outcome): Outcome {
    if outcome.Overrun? then Overrun
    else if len == 0 then Fine
    else if |a| + len > LINE_MAX_SIZE then TooLong
    else if |a + line| > LINE_MAX_SIZE then Overrun
    else Fine
  }

  function JoinedText(a: string, line: string, len: int, outcome: Outcome): string {
    if len == 0 || !Joined(a, line, len, outcome).Fine? then a else a + line
  }

  lemma JoinedTerminated(a: string, b: string, nested: bool, lost: bool, edge: bool,
                         line: string, len: int, outcome: Outcome, after: string)
    requires Span(a) == |a| <= LINE_MAX_SIZE && Delivered(b, nested, edge, line, len, outcome, after) && Span(b) < |b|
    ensures Delivered(a + b, lost, edge, JoinedText(a, line, len, outcome), |a| + len, Joined(a, line, len, outcome),
        after)
  {
    hide Span;
    LineInSecond(a, b);
    assert !Overflows(a + b, lost, edge) && len == Span(b);
    if len == 0 {
      assert (a + b)[..|a|] == a;
    } else if outcome.Fine? {
      assert line == b[..Span(b)] && after == b[Span(b) + 1..];
    }
  }

  lemma JoinedRest(a: string, b: string, nested: bool, edge: bool, line: string, len: int, outcome: Outcome,
                   after: string)
    requires Span(a) == |a| <= LINE_MAX_SIZE && Delivered(b, nested, edge, line, len, outcome, after)
    requires Span(b) == |b| && b != "" && (|b| == LINE_MAX_SIZE + 1 ==> edge) && (edge ==> |b| > LINE_MAX_SIZE)
    ensures Delivered(a + b, nested || |b| == 1, edge,
                      JoinedText(a, line, len, outcome), |a| + len, Joined(a, line, len, outcome), after)
  {
    hide Span;
    LineInSecond(a, b);
  }

  /** A line that begins in the buffer and goes on in what a nested call delivered. */
  lemma JoinedLine(a: string, b: string, nested: bool, lost: bool, edge: bool,
                   line: string, len: int, outcome: Outcome, after: string)
    requires Span(a) == |a| <= LINE_MAX_SIZE && Delivered(b, nested, edge, line, len, outcome, after)
    requires b == "" ==> !lost
    requires b != "" && Span(b) == |b| ==> lost == (nested || |b| == 1)
    requires (|b| == LINE_MAX_SIZE + 1 ==> edge) && (edge ==> |b| > LINE_MAX_SIZE)
    ensures Delivered(a + b, lost, edge, JoinedText(a, line, len, outcome), |a| + len, Joined(a, line, len, outcome),
        after)
    ensures Joined(a, line, len, outcome).Fine? ==> outcome.Fine?
    ensures outcome.TooLong? ==> Joined(a, line, len, outcome).TooLong?
  {
    if b == "" {
      assert a + b == a;
    } else if Span(b) < |b| {
      JoinedTerminated(a, b, nested, lost, edge, line, len, outcome, after);
    } else {
      JoinedRest(a, b, nested, edge, line, len, outcome, after);
    }
  }

  /** No line is too long for the line buffer. */
  predicate Fits(lines: seq<string>) {
    forall i | 0 <= i < |lines| :: |lines[i]| <= LINE_MAX_SIZE
  }

  lemma FitsParts(a: seq<string>, b: seq<string>)
    ensures Fits(a + b) <==> Fits(a) && Fits(b)
  {
    if Fits(a + b) {
      forall i | 0 <= i < |a| ensures |a[i]| <= LINE_MAX_SIZE {
        assert (a + b)[i] == a[i];
      }
      forall i | 0 <= i < |b| ensures |b[i]| <= LINE_MAX_SIZE {
        assert (a + b)[|a| + i] == b[i];
      }
    }
  }

  lemma SkipNewlines(text: string, skipped: nat)
    requires skipped <= |text| && forall i | 0 <= i < skipped :: text[i] == '\n'
    ensures NonEmpty(Lines(text)) == NonEmpty(Lines(text[skipped..]))
  {
    if skipped > 0 {
      assert Span(text) == 0 && text[1..][skipped - 1..] == text[skipped..];
      assert Lines(text) == [""] + Lines(text[1..]);
      SkipNewlines(text[1..], skipped - 1);
    } else {
      assert text[0..] == text;
    }
  }

  lemma NonEmptyFirst(line: string, lines: seq<string>)
    ensures NonEmpty([line] + lines) == Kept(line) + NonEmpty(lines)
  {
    assert ([line] + lines)[1..] == lines;
  }

  lemma FirstOfLines(u: string)
    requires Span(u) < |u|
    ensures NonEmpty(Lines(u)) == Kept(u[..Span(u)]) + NonEmpty(Lines(u[Span(u) + 1..]))
  {
    hide Lines, NonEmpty, Kept, Span;
    LinesStep(u);
    NonEmptyFirst(u[..Span(u)], Lines(u[Span(u) + 1..]));
  }

  lemma LinesStep(u: string)
    requires Span(u) < |u|
    ensures Lines(u) == [u[..Span(u)]] + Lines(u[Span(u) + 1..])
  {
    hide Span;
  }

  lemma SeenAfter(text: string, k: nat, lost: bool)
    requires k < |text|
    ensures k <= |Seen(text, lost)| && Seen(text, lost)[k..] == Seen(text[k..], lost)
    ensures forall i | 0 <= i < k :: Seen(text, lost)[i] == text[i]
    ensures Terminated(text) <==> Terminated(text[k..])
  {
  }

  lemma CutParts(r: string, n: nat, lost: bool)
    requires n < |r| && r[n] == '\n' && (lost ==> !Terminated(r))
    ensures var u := Seen(r, lost);
            && n < |u| && u[n] == '\n' && u[..n] == r[..n] && u[n + 1..] == Seen(r[n + 1..], lost)
    ensures Terminated(r) <==> Terminated(r[n + 1..])
  {
    var after := r[n + 1..];
    assert after != "" ==> after[|after| - 1] == r[|r| - 1];
  }

  /** The first line of a text is what it is if the last character is lost later. */
  lemma SeenLine(r: string, lost: bool)
    requires Span(r) < |r| && (lost ==> !Terminated(r))
    ensures var u, n := Seen(r, lost), Span(r);
            && Span(u) == n < |u| && u[..n] == r[..n] && u[n + 1..] == Seen(r[n + 1..], lost)
            && (Terminated(r) <==> Terminated(r[n + 1..]))
  {
    hide Span, Seen, Terminated;
    var u, n := Seen(r, lost), Span(r);
    CutParts(r, n, lost);
    forall i | 0 <= i < n ensures u[i] != '\n' {
      assert u[i] == u[..n][i] == r[..n][i];
    }
    SpanIs(u, n);
  }

  /** A call that goes on to a newline. */
  lemma LineAndRest(text: string, skipped: nat, lost: bool)
    requires skipped <= |text| && (forall i | 0 <= i < skipped :: text[i] == '\n')
    requires Span(text[skipped..]) < |text[skipped..]| && (lost ==> !Terminated(text))
    ensures var r := text[skipped..]; var after := r[Span(r) + 1..];
            && NonEmpty(Lines(Seen(text, lost))) == Kept(r[..Span(r)]) + NonEmpty(Lines(Seen(after, lost)))
            && (Terminated(text) <==> Terminated(after))
  {
    hide Lines, NonEmpty, Kept, Seen, Terminated, Span;
    SeenAfter(text, skipped, lost);
    SeenLine(text[skipped..], lost);
    SkipNewlines(Seen(text, lost), skipped);
    FirstOfLines(Seen(text[skipped..], lost));
  }

  /** A call that takes the rest. */
  lemma LastLine(text: string, skipped: nat, lost: bool)
    requires skipped < |text| && (forall i | 0 <= i < skipped :: text[i] == '\n')
    requires Span(text[skipped..]) == |text[skipped..]|
    ensures NonEmpty(Lines(Seen(text, lost))) == Kept(Seen(text[skipped..], lost)) && !Terminated(text)
  {
    SeenAfter(text, skipped, lost);
    SkipNewlines(Seen(text, lost), skipped);
    var u := Seen(text[skipped..], lost);
    SpanIs(u, |u|);
    assert Lines(u) == if u == "" then [] else [u] + [];
    NonEmptyFirst(u, []);
  }

  /** A successful call gives the next of the text's non-empty lines, or an empty line. */
  lemma {:induction false} NextLine(text: string, skipped: nat, lost: bool, edge: bool, line: string, len: int,
                                    after: string, lostAfter: bool)
    requires skipped <= |text| && (forall i | 0 <= i < skipped :: text[i] == '\n')
    requires Delivered(text[skipped..], lost, edge, line, len, Fine, after) && (lost ==> !Terminated(text))
    requires Span(text[skipped..]) < |text[skipped..]| ==> lostAfter == lost
    ensures |line| <= LINE_MAX_SIZE
    ensures len == -1 ==> NonEmpty(Lines(Seen(text, lost))) == [] && after == ""
    ensures len != -1 ==> |after| < |text|
    ensures len != -1 ==> NonEmpty(Lines(Seen(text, lost))) == Kept(line) + NonEmpty(Lines(Seen(after, lostAfter)))
  {
    hide Lines, NonEmpty, Kept;
    var r := text[skipped..];
    if r == "" {
      NoLines(text, lost);
    } else if Span(r) < |r| {
      LineAndRest(text, skipped, lost);
    } else {
      LastLine(text, skipped, lost);
      NoLines("", lostAfter);
    }
  }

  lemma NoLines(text: string, lost: bool)
    requires (forall i | 0 <= i < |text| :: text[i] == '\n') && (lost && text != "" ==> !Terminated(text))
    ensures NonEmpty(Lines(Seen(text, lost))) == []
  {
    SkipNewlines(text, |text|);
    assert text[|text|..] == "";
  }

  lemma LongFirstLine(r: string)
    requires Span(r) > LINE_MAX_SIZE
    ensures !Fits(NonEmpty(Lines(r)))
  {
    var first := r[..Span(r)];
    assert Lines(r)[0] == first;
    assert NonEmpty(Lines(r))[0] == first;
  }

  lemma LongRest(r: string, lost: bool)
    requires Span(r) == |r| > LINE_MAX_SIZE + if lost then 1 else 0
    ensures Span(Seen(r, lost)) > LINE_MAX_SIZE
  {
    SpanIs(Seen(r, lost), |Seen(r, lost)|);
  }

  /** A call that ends in any other way has met a line that is too long. */
  lemma {:induction false} LongLine(text: string, skipped: nat, lost: bool, edge: bool, line: string, len: int,
                                    outcome: Outcome, after: string)
    requires skipped <= |text| && (forall i | 0 <= i < skipped :: text[i] == '\n') && (lost ==> !Terminated(text))
    requires Delivered(text[skipped..], lost, edge, line, len, outcome, after) && !outcome.Fine?
    ensures !Fits(NonEmpty(Lines(Seen(text, lost))))
  {
    hide Lines, NonEmpty, Fits, Seen, Span;
    var r := text[skipped..];
    SeenAfter(text, skipped, lost);
    SkipNewlines(Seen(text, lost), skipped);
    if Span(r) < |r| {
      SeenLine(r, lost);
    } else {
      LongRest(r, lost);
    }
    LongFirstLine(Seen(r, lost));
  }

  /** A lost character shows: the lines are not those of the text. */
  lemma {:induction false} LostShows(text: string)
    requires !Terminated(text)
    ensures NonEmpty(Lines(Seen(text, true))) != NonEmpty(Lines(text))
    decreases |text|
  {
    hide Lines, NonEmpty;
    assert text[0..] == text && Seen(text, false) == text;
    if Span(text) < |text| {
      var after := text[Span(text) + 1..];
      LineAndRest(text, 0, true);
      LineAndRest(text, 0, false);
      LostShows(after);
      if NonEmpty(Lines(Seen(text, true))) == NonEmpty(Lines(text)) {
        SamePrefix(Kept(text[..Span(text)]), NonEmpty(Lines(Seen(after, true))), NonEmpty(Lines(after)));
      }
    } else {
      LastLine(text, 0, true);
      LastLine(text, 0, false);
    }
  }

  lemma SeenAll(text: string)
    ensures Seen(text, false) == text
  {
  }

  lemma FitsKept(line: string)
    ensures Fits([]) && (|line| <= LINE_MAX_SIZE ==> Fits(Kept(line)))
  {
  }

  lemma SamePrefix(a: seq<string>, b: seq<string>, c: seq<string>)
    requires a + b == a + c
    ensures b == c
  {
    assert b == (a + b)[|a|..] && c == (a + c)[|a|..];
  }

  // ----- which files overrun a line buffer

  /** Length of the part after the last newline. */
  function TailSize(s: string): (n: nat)
    ensures n <= |s| && (forall i | |s| - n <= i < |s| :: s[i] != '\n') && (n < |s| ==> s[|s| - n - 1] == '\n')
  {
    if s == "" || s[|s| - 1] == '\n' then 0 else 1 + TailSize(s[..|s| - 1])
  }

  /** What follows the last newline. */
  function Tail(s: string): string {
    s[|s| - TailSize(s)..]
  }

  /** The text up to its last newline. */
  function Head(s: string): string {
    s[..|s| - TailSize(s)]
  }

  /** Complete lines in front make no difference to the tail. */
  lemma {:induction false} TailAfter(s: string, k: nat)
    requires k <= |s| && (k > 0 ==> s[k - 1] == '\n')
    ensures TailSize(s) == TailSize(s[k..]) && Tail(s) == Tail(s[k..])
  {
    if k < |s| && s[|s| - 1] != '\n' {
      var n := |s| - 1;
      TailAfter(s[..n], k);
      assert s[k..][..n - k] == s[..n][k..];
      assert s[k..][n - k] == s[n];
    }
  }

  /** All lines that end with a newline fit, and what follows them overruns a buffer. */
  predicate EndsInOverrun(text: string, lost: bool, edge: bool) {
    Overflows(Tail(text), lost, edge) && Fits(NonEmpty(Lines(Head(text))))
  }

  lemma HeadStep(r: string)
    requires Span(r) < |r|
    ensures var after := r[Span(r) + 1..];
            Tail(r) == Tail(after) && NonEmpty(Lines(Head(r))) == Kept(r[..Span(r)]) + NonEmpty(Lines(Head(after)))
  {
    hide Lines, NonEmpty, Kept, Span, TailSize;
    var n, after, h := Span(r), r[Span(r) + 1..], Head(r);
    TailAfter(r, n + 1);
    SpanIs(h, n);
    assert h[..n] == r[..n] && h[n + 1..] == Head(after);
    FirstOfLines(h);
  }

  lemma HeadSkip(text: string, skipped: nat)
    requires skipped <= |text| && forall i | 0 <= i < skipped :: text[i] == '\n'
    ensures Tail(text) == Tail(text[skipped..])
    ensures NonEmpty(Lines(Head(text))) == NonEmpty(Lines(Head(text[skipped..])))
  {
    hide Lines, NonEmpty, TailSize;
    TailAfter(text, skipped);
    assert Head(text)[skipped..] == Head(text[skipped..]);
    SkipNewlines(Head(text), skipped);
  }

  lemma NoHead(r: string)
    requires Span(r) == |r|
    ensures Tail(r) == r && NonEmpty(Lines(Head(r))) == [] && Fits([])
  {
    hide Span;
    assert TailSize(r) == |r|;
  }

  /** How a call ends says whether the file overruns a buffer; or it is the rest of the file
      that says so. */
  lemma {:induction false} CallEnd(text: string, skipped: nat, lost: bool, edge: bool, line: string, len: int,
                                   outcome: Outcome, after: string, lostAfter: bool, edgeAfter: bool)
    requires skipped <= |text| && forall i | 0 <= i < skipped :: text[i] == '\n'
    requires Delivered(text[skipped..], lost, edge, line, len, outcome, after)
    requires Span(text[skipped..]) < |text[skipped..]| && outcome.Fine? ==>
               lostAfter == lost && (|after| > LINE_MAX_SIZE + 1 ==> edgeAfter == edge)
    ensures if outcome.Fine? && len != -1
            then EndsInOverrun(text, lost, edge) == EndsInOverrun(after, lostAfter, edgeAfter)
            else EndsInOverrun(text, lost, edge) <==> outcome.Overrun?
  {
    hide Lines, NonEmpty, Head, Tail, Fits, Kept;
    var r := text[skipped..];
    HeadSkip(text, skipped);
    if Span(r) < |r| {
      LineCallEnd(r, lost, edge, line, len, outcome, after, lostAfter, edgeAfter);
    } else {
      NoHead(r);
      NoHead("");
    }
  }

  lemma LineCallEnd(r: string, lost: bool, edge: bool, line: string, len: int, outcome: Outcome, after: string,
                lostAfter: bool, edgeAfter: bool)
    requires Delivered(r, lost, edge, line, len, outcome, after) && Span(r) < |r|
    requires outcome.Fine? ==> lostAfter == lost && (|after| > LINE_MAX_SIZE + 1 ==> edgeAfter == edge)
    ensures if outcome.Fine? then EndsInOverrun(r, lost, edge) == EndsInOverrun(after, lostAfter, edgeAfter)
            else !EndsInOverrun(r, lost, edge) && !outcome.Overrun?
  {
    hide Lines, NonEmpty, Head, TailSize, Fits, Kept, Span;
    var line0, rest := r[..Span(r)], r[Span(r) + 1..];
    HeadStep(r);
    FitsParts(Kept(line0), NonEmpty(Lines(Head(rest))));
    FitsKept(line0);
    if outcome.Fine? {
      assert rest == after && |Tail(rest)| <= |after|;
    } else {
      LongKept(line0);
    }
  }

  lemma LongKept(line: string)
    requires |line| > LINE_MAX_SIZE
    ensures !Fits(Kept(line))
  {
    assert Kept(line)[0] == line;
  }
}
