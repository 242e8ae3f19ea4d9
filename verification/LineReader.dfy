/** The line reader with its one static buffer. */
module LineReader {

  import opened LineText

  class Reader {
    var chunks: seq<string>   // what the following reads of the file will return
    var buffer: string        // from the buffer pointer to the end of the text in the buffer
    var readLen: int

    ghost predicate Valid()
      reads this
    {
      && Pieces(chunks)
      && (readLen == 0 || 0 < readLen == |buffer| <= LINE_MAX_SIZE)
    }

    /** The text still to be read. */
    ghost function Remaining(): string
      reads this
    {
      (if readLen == 0 then "" else buffer) + Flatten(chunks)
    }

    /** Whether the last character of the text will be lost, if this call skips newlines or not
        and all later ones do. */
    ghost predicate Loses(nonempty: bool)
      reads this
    {
      if readLen > 0 then LastLost(CleanAfter(nonempty, buffer), chunks)
      else chunks != [] && LastLost(CleanAfter(nonempty, chunks[0]), chunks[1..])
    }

    /** What calls that skip newlines make of the text. */
    ghost function Yields(): seq<string>
      reads this
    {
      NonEmpty(Lines(Seen(Remaining(), Loses(true))))
    }

    /** Whether such calls will overrun a line buffer. */
    ghost predicate Overruns()
      reads this
    {
      EndsInOverrun(Remaining(), Loses(true), ReadEdge(chunks))
    }

    constructor (chunks: seq<string>)
      requires Pieces(chunks)
      ensures Valid() && Remaining() == Flatten(chunks) && this.chunks == chunks
      ensures Loses(true) == LastLost(true, chunks)
    {
      this.chunks, buffer, readLen := chunks, "", 0;
      new;
      ReadAtStart(chunks);
    }

    /** The next read; at the end of the file it returns nothing. */
    method Fill()
      requires Valid() && readLen == 0
      modifies this
      ensures Valid() && Remaining() == old(Remaining())
      ensures if old(chunks) == [] then readLen == 0 && chunks == []
              else readLen > 0 && buffer == old(chunks)[0] && chunks == old(chunks)[1..]
    {
      if chunks == [] {
        buffer := "";
      } else {
        buffer, readLen, chunks := chunks[0], |chunks[0]|, chunks[1..];
      }
    }

    lemma LostRest()
      requires Valid() && Loses(true)
      ensures !Terminated(Remaining())
    {
      hide CleanAfter, LastLost, Flatten;
      if readLen > 0 {
        LostIsUnterminated(CleanAfter(true, buffer), chunks);
        var rest := Flatten(chunks);
        assert Remaining()[|Remaining()| - 1] == rest[|rest| - 1];
      } else {
        ReadAtStart(chunks);
        LostIsUnterminated(true, chunks);
        assert Remaining() == Flatten(chunks);
      }
    }

    /** What a call gives for the text `r`; after a complete line, what is to be said about the
        text holds of the rest of it. */
    ghost predicate Gives(r: string, lost: bool, edge: bool, line: string, len: int, outcome: Outcome)
      reads this
    {
      && Delivered(r, lost, edge, line, len, outcome, Remaining())
      && (Span(r) < |r| && outcome.Fine? ==>
            Loses(true) == lost && (|Remaining()| > LINE_MAX_SIZE + 1 ==> ReadEdge(chunks) == edge))
    }

    /** Goes on with a line whose first part `all` was in the buffer. */
    method TakeRest(all: string) returns (line: string, len: int, outcome: Outcome)
      requires readLen == 0 && Span(all) == |all| <= LINE_MAX_SIZE && Pieces(chunks)
      modifies this
      ensures Valid()
      ensures Gives(all + old(Flatten(chunks)), old(LastLost(false, chunks)), old(ReadEdge(chunks)), line, len, outcome)
      decreases |chunks|, 2
    {
      hide Span, Flatten, Delivered, CleanAfter, LastLost, Seen, Terminated, ReadEdge;
      ghost var rest, lost, edge := Flatten(chunks), LastLost(false, chunks), ReadEdge(chunks);
      ghost var nested := Loses(false);
      assert Remaining() == rest;
      ReadWithin(chunks);
      EdgeIsLong(chunks);
      EmptyRest(chunks);
      SpanOfJoined(all, rest);
      len, line, outcome := |all|, all, Fine;
      var nextLine, nextLen, nextOutcome, none := GetFileLine(false);
      JoinedLine(all, rest, nested, lost, edge, nextLine, nextLen, nextOutcome, Remaining());
      if !nextOutcome.Fine? {
        outcome, len := nextOutcome, len + nextLen;
      } else if nextLen != 0 {
        len := len + nextLen;
        if len > LINE_MAX_SIZE {
          outcome := TooLong;
        } else if |line| + |nextLine| > LINE_MAX_SIZE {
          outcome := Overrun;
        } else {
          line := line + nextLine;
        }
      }
    }

    /** Takes a line from the text in the buffer, which may be used up. */
    method TakeLine() returns (line: string, len: int, outcome: Outcome)
      requires readLen == |buffer| <= LINE_MAX_SIZE && Pieces(chunks)
      modifies this
      ensures Valid()
      ensures Gives(old(buffer + Flatten(chunks)), old(LastLost(CleanAfter(false, buffer), chunks)),
          old(ReadEdge(chunks)),
                    line, len, outcome)
      decreases |chunks| + 1, 0
    {
      hide Span, Flatten, Delivered, CleanAfter, LastLost, ReadEdge;
      ghost var rest, all := Flatten(chunks), buffer;
      ghost var lost := LastLost(CleanAfter(false, buffer), chunks);
      AfterTaking(buffer, chunks);
      outcome, len := Fine, Span(buffer);
      line := buffer[..len];
      buffer := if len == |buffer| then "" else buffer[len + 1..];
      readLen := readLen - (len + 1);
      if readLen < 0 {
        readLen := 0;
        assert line == all;
        line, len, outcome := TakeRest(line);
      } else {
        LineInBuffer(all, rest, lost, ReadEdge(chunks));
        assert Remaining() == all[Span(all) + 1..] + rest;
        ReadAtStart(chunks);
      }
    }

    /** Reads a line. `skipped` is the number of newlines passed over first. */
    method GetFileLine(nonempty: bool) returns (line: string, len: int, outcome: Outcome, ghost skipped: nat)
      requires Valid()
      modifies this
      ensures Valid()
      ensures skipped <= |old(Remaining())| && (forall i | 0 <= i < skipped :: old(Remaining())[i] == '\n')
      ensures !nonempty ==> skipped == 0
      ensures Gives(old(Remaining())[skipped..], old(Loses(nonempty)), old(ReadEdge(chunks)), line, len, outcome)
      decreases |chunks| + (if readLen > 0 then 1 else 0), 1
    {
      hide Span, Delivered, Flatten, CleanAfter, LastLost, ReadEdge;
      skipped := 0;
      ghost var edge, text := ReadEdge(chunks), Remaining();
      EdgeOfFirst(chunks);
      if readLen == 0 {
        Fill();
      }
      if readLen == 0 {
        NothingLeft(Loses(nonempty), edge);
        NoSpan();
        return "", -1, Fine, 0;
      }
      if nonempty {
        AfterSkipping(buffer);
        var skip := Newlines(buffer);
        skipped := skip;
        buffer, readLen := buffer[skip..], readLen - skip;
      }
      assert buffer + Flatten(chunks) == text[skipped..];
      ghost var lost, now := LastLost(CleanAfter(false, buffer), chunks), ReadEdge(chunks);
      line, len, outcome := TakeLine();
      SameEdge(text[skipped..], lost, now, edge, line, len, outcome, Remaining());
    }

    /** The reader's promise for a whole file, one call at a time: the lines that come out are,
        but for empty ones, the non-empty lines of the file, or of the file without its last
        character; a call that ends otherwise has met a line that is too long. */
    method ReadNonEmpty() returns (line: string, len: int, outcome: Outcome)
      requires Valid()
      modifies this
      ensures Valid()
      ensures !outcome.Fine? ==> !Fits(old(Yields()))
      ensures outcome.Fine? && len == -1 ==> old(Yields()) == [] && Remaining() == ""
      ensures outcome.Fine? && len != -1 ==>
                && |Remaining()| < |old(Remaining())| && |line| <= LINE_MAX_SIZE
                && old(Yields()) == Kept(line) + Yields()
      ensures if outcome.Fine? && len != -1 then old(Overruns()) == Overruns()
              else old(Overruns()) <==> outcome.Overrun?
    {
      hide Delivered, Lines, NonEmpty, Fits, Span, Seen, LastLost, CleanAfter, ReadEdge, EndsInOverrun;
      ghost var text, lost, edge := Remaining(), Loses(true), ReadEdge(chunks);
      if lost {
        LostRest();
      }
      ghost var skipped;
      line, len, outcome, skipped := GetFileLine(true);
      CallEnd(text, skipped, lost, edge, line, len, outcome, Remaining(), Loses(true), ReadEdge(chunks));
      if outcome.Fine? {
        NextLine(text, skipped, lost, edge, line, len, Remaining(), Loses(true));
      } else {
        LongLine(text, skipped, lost, edge, line, len, outcome, Remaining());
      }
    }

    lemma LostOrNot()
      requires Valid()
      ensures Yields() == NonEmpty(Lines(Remaining())) <==> !Loses(true)
    {
      hide Lines, NonEmpty, Seen, LastLost, CleanAfter;
      if Loses(true) {
        LostRest();
        LostShows(Remaining());
      }
      SeenAll(Remaining());
    }

    /** Reads the whole file, the way its callers do. That ends well exactly if all lines fit.
        The non-empty lines that come out are then those of the file, exactly if its last
        character is not lost. */
    method ReadAll() returns (lines: seq<string>, outcome: Outcome)
      requires Valid()
      modifies this
      ensures outcome.Fine? <==> Fits(old(Yields()))
      ensures outcome.Overrun? <==> old(Overruns())
      ensures outcome.Fine? ==> lines == old(Yields())
      ensures outcome.Fine? ==> (lines == NonEmpty(Lines(old(Remaining()))) <==> !old(Loses(true)))
      ensures outcome.Fine? ==> Remaining() == "" && readLen == 0 && chunks == []
    {
      hide Lines, NonEmpty, Fits, Kept, Yields, Overruns, Loses;
      LostOrNot();
      ghost var all, left, over := Yields(), Yields(), Overruns();
      lines := [];
      FitsKept("");
      var line, len;
      line, len, outcome := ReadNonEmpty();
      while outcome.Fine? && len != -1
        invariant Valid() && all == lines + left && Fits(lines)
        invariant !outcome.Fine? ==> !Fits(left)
        invariant outcome.Fine? ==> if len == -1 then left == [] && Remaining() == ""
                                    else |line| <= LINE_MAX_SIZE && left == Kept(line) + Yields()
        invariant if outcome.Fine? && len != -1 then over == Overruns() else over <==> outcome.Overrun?
        decreases if outcome.Fine? then |Remaining()| + (if len == -1 then 1 else 2) else 0
      {
        FitsKept(line);
        FitsParts(lines, Kept(line));
        ghost var rest := Yields();
        assert lines + left == lines + Kept(line) + rest;
        lines, left := lines + Kept(line), rest;
        line, len, outcome := ReadNonEmpty();
      }
      FitsParts(lines, left);
    }
  }

  lemma EmptyRest(chunks: seq<string>)
    ensures chunks == [] ==> Flatten(chunks) == ""
  {
  }

  lemma NoSpan()
    ensures Span("") == 0 && ""[0..] == ""
  {
  }

  /** An edge that is not the first one is one of the others. */
  lemma EdgeOfFirst(chunks: seq<string>)
    ensures chunks != [] && |Flatten(chunks)| > LINE_MAX_SIZE + 1 ==> ReadEdge(chunks) == ReadEdge(chunks[1..])
  {
  }

  /** The file "abc" loses its last character when it is read as "ab" and "c"; a file "ab", a
      newline and "c" does not, but one with two newlines in between does. */
  lemma LoneCharacter()
    ensures LastLost(true, ["ab", "c"]) && !LastLost(true, ["abc"]) && !LastLost(true, ["a", "bc"])
    ensures !LastLost(true, ["ab\n", "c"]) && LastLost(true, ["ab\n\n", "c"])
  {
  }

  /** A file without a newline whose last chunk is not a lone character overruns a buffer
      exactly if it, or what follows one of its reads, is one character too long. */
  method OneLine(chunks: seq<string>) returns (outcome: Outcome)
    requires Pieces(chunks) && chunks != [] && |chunks[|chunks| - 1]| > 1 && Span(Flatten(chunks)) == |Flatten(chunks)|
    ensures outcome.Overrun? <==> |Flatten(chunks)| == LINE_MAX_SIZE + 1
                                  || (|Flatten(chunks)| > LINE_MAX_SIZE + 1 && ReadEdge(chunks))
    ensures outcome.Fine? <==> |Flatten(chunks)| <= LINE_MAX_SIZE
  {
    hide Span, Flatten, ReadEdge, LastLost, CleanAfter;
    var reader := new Reader(chunks);
    NotLost(true, chunks);
    FlattenSize(chunks);
    FirstLetter(Flatten(chunks));
    var line, len; ghost var skipped;
    line, len, outcome, skipped := reader.GetFileLine(true);
    assert skipped == 0 && Flatten(chunks)[0..] == Flatten(chunks);
    OneRest(Flatten(chunks), ReadEdge(chunks), line, len, outcome, reader.Remaining());
  }

  lemma OneRest(r: string, edge: bool, line: string, len: int, outcome: Outcome, after: string)
    requires Delivered(r, false, edge, line, len, outcome, after) && r != "" && Span(r) == |r|
    ensures outcome.Overrun? <==> |r| == LINE_MAX_SIZE + 1 || (|r| > LINE_MAX_SIZE + 1 && edge)
    ensures outcome.Fine? <==> |r| <= LINE_MAX_SIZE
  {
    hide Span;
  }

  lemma NotLost(clean: bool, chunks: seq<string>)
    requires chunks != [] && |chunks[|chunks| - 1]| > 1
    ensures !LastLost(clean, chunks)
    decreases |chunks|
  {
    if |chunks| > 1 {
      NotLost(CleanAfter(clean, chunks[0]), chunks[1..]);
    }
  }

  lemma FirstLetter(text: string)
    requires text != "" && Span(text) == |text|
    ensures text[0] != '\n'
  {
  }

  /** `n` copies of a letter. */
  function Letters(n: nat): (s: string)
    ensures |s| == n && forall i | 0 <= i < n :: s[i] == 'a'
  {
    if n == 0 then "" else Letters(n - 1) + "a"
  }

  lemma LetterChunks(a: nat, b: nat, c: nat)
    ensures var chunks := [Letters(a), Letters(b), Letters(c)];
            var text := Flatten(chunks);
            && |text| == Span(text) == a + b + c
            && (ReadEdge(chunks) <==> LINE_MAX_SIZE + 1 in {a + b + c, b + c, c})
  {
    hide Letters, Span, Flatten, ReadEdge;
    var x, y, z := Letters(a), Letters(b), Letters(c);
    FlattenStep(z, []);
    FlattenStep(y, [z]);
    FlattenStep(x, [y, z]);
    assert [z] == [z] + [] && [y, z] == [y] + [z] && [x, y, z] == [x] + [y, z];
    var text := Flatten([x, y, z]);
    SpanIs(text, |text|);
  }

  lemma FlattenStep(x: string, chunks: seq<string>)
    ensures Flatten([x] + chunks) == x + Flatten(chunks) && Flatten([]) == "" && !ReadEdge([])
    ensures ReadEdge([x] + chunks) <==> |x| + |Flatten(chunks)| == LINE_MAX_SIZE + 1 || ReadEdge(chunks)
  {
    assert ([x] + chunks)[1..] == chunks;
  }

  /** A file of 4097 letters and no newline, read as 2, 2093 and 2002 letters, overruns the
      buffer of the call; one of 4099, read as 2, 4095 and 2, that of a nested call; and 4099
      letters read as 3, 4094 and 2 end the program. */
  method LongFiles() returns (first: Outcome, second: Outcome, third: Outcome)
    ensures first == Overrun && second == Overrun && third == TooLong
  {
    hide Letters, Flatten, ReadEdge, Span;
    LetterChunks(2, 2093, 2002);
    LetterChunks(2, 4095, 2);
    LetterChunks(3, 4094, 2);
    first := OneLine([Letters(2), Letters(2093), Letters(2002)]);
    second := OneLine([Letters(2), Letters(4095), Letters(2)]);
    third := OneLine([Letters(3), Letters(4094), Letters(2)]);
  }
}
