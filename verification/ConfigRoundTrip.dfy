/** Writing entries down and parsing them again. */
module ConfigRoundTrip {

  import opened LineText
  import opened LineReader
  import opened ConfigParser

  /** A word of a value: the parser does not take its ends for quotes. */
  predicate PlainWord(w: string) {
    IsWord(w) && w[0] != '"' && w[|w| - 1] != '"' && '\n' !in w
  }

  predicate PlainWords(words: seq<string>) {
    forall i | 0 <= i < |words| :: PlainWord(words[i])
  }

  predicate PlainName(name: string) {
    IsWord(name) && name[0] != '#' && '\n' !in name
  }

  /** The words with the closing quote. */
  function Closed(words: seq<string>): seq<string>
    requires words != []
  {
    words[..|words| - 1] + [words[|words| - 1] + "\""]
  }

  /** The tokens of a quoted value. */
  function Quote(words: seq<string>): (tokens: seq<string>)
    requires words != []
    ensures |tokens| == |words|
  {
    ["\"" + Closed(words)[0]] + Closed(words)[1..]
  }

  /** A value with more words put to its end. */
  function Extend(value: string, words: seq<string>): string
    decreases |words|
  {
    if words == [] then value else Extend(value + " " + words[0], words[1..])
  }

  lemma {:induction false} ExtendIsJoin(value: string, words: seq<string>)
    requires words != []
    ensures Extend(value, words[1..]) == value + Extend("", words[1..])
    ensures Extend(words[0], words[1..]) == Join(words)
    decreases |words|
  {
    var rest := words[1..];
    if rest != [] {
      var more := rest[1..];
      ExtendIsJoin(value + " " + rest[0], rest);
      ExtendIsJoin("" + " " + rest[0], rest);
      ExtendIsJoin(words[0] + " " + rest[0], rest);
      ExtendIsJoin(rest[0], rest);
      assert Extend(words[0], rest) == words[0] + " " + rest[0] + Extend("", more);
    }
  }

  /** Inside a quoted value words are collected. */
  lemma {:induction false} WordsCollected(name: string, value: string, words: seq<string>)
    requires PlainWords(words)
    ensures AfterTokens(Quoted(name, value), words) == Quoted(name, Extend(value, words))
    decreases |words|
  {
    if words != [] {
      assert AfterToken(Quoted(name, value), words[0]) == Quoted(name, value + " " + words[0]);
      WordsCollected(name, value + " " + words[0], words[1..]);
    }
  }

  /** The closing quote ends the value, whatever follows on its line. */
  lemma {:induction false} ValueClosed(name: string, value: string, words: seq<string>)
    requires PlainWords(words) && words != []
    ensures AfterTokens(Quoted(name, value), Closed(words)) == Done(name, Extend(value, words))
    decreases |words|
  {
    var token := Closed(words)[0];
    var after := AfterToken(Quoted(name, value), token);
    if |words| == 1 {
      assert Closed(words) == [token] && LastWord(token) == words[0];
      assert Closed(words)[1..] == [];
    } else {
      assert token == words[0] && after == Quoted(name, value + " " + words[0]);
      assert Closed(words)[1..] == Closed(words[1..]);
      ValueClosed(name, value + " " + words[0], words[1..]);
    }
  }

  lemma {:induction false} ExtendConcat(value: string, a: seq<string>, b: seq<string>)
    ensures Extend(value, a + b) == Extend(Extend(value, a), b)
    decreases |a|
  {
    if a == [] {
      assert a + b == b;
    } else {
      assert (a + b)[1..] == a[1..] + b;
      ExtendConcat(value + " " + a[0], a[1..], b);
    }
  }

  /** Past its value a line has nothing more to say. */
  lemma {:induction false} RestIgnored(m: Mode, tokens: seq<string>, rest: seq<string>)
    requires forall i | 0 <= i < |tokens| :: tokens[i] != ""
    requires forall i | 0 <= i < |rest| :: rest[i] != ""
    requires AfterTokens(m, tokens).Done?
    ensures AfterTokens(m, tokens + rest) == AfterTokens(m, tokens)
    decreases |tokens| + |rest|
  {
    if tokens != [] {
      assert (tokens + rest)[1..] == tokens[1..] + rest;
      RestIgnored(AfterToken(m, tokens[0]), tokens[1..], rest);
    } else if rest != [] {
      assert tokens + rest == rest && [] + rest[1..] == rest[1..];
      RestIgnored(AfterToken(m, rest[0]), [], rest[1..]);
    }
  }

  function AllTokens(lines: seq<string>): (tokens: seq<string>)
    ensures forall i | 0 <= i < |tokens| :: tokens[i] != ""
    ensures lines != [] ==> |tokens| >= |Tokens(lines[|lines| - 1])|
  {
    if lines == [] then [] else Tokens(lines[0]) + AllTokens(lines[1..])
  }

  /** What is left of the words once `k` of them stood on the first line. */
  lemma ClosedSplit(words: seq<string>, rest: seq<string>, t: seq<string>, u: seq<string>)
    requires words != [] && t + u == Closed(words) + rest && |u| > |rest|
    ensures |t| < |words| && t == words[..|t|] && u == Closed(words[|t|..]) + rest
  {
    assert |t| + |u| == |words| + |rest|;
    assert t == (t + u)[..|t|] && u == (t + u)[|t|..];
    assert (Closed(words) + rest)[..|t|] == words[..|t|];
    assert (Closed(words) + rest)[|t|..] == Closed(words)[|t|..] + rest;
    assert Closed(words)[|t|..] == Closed(words[|t|..]);
  }

  /** What the lines from the one whose tokens are `t` on give, starting in mode `m`. */
  function EntriesFrom(m: Mode, t: seq<string>, later: seq<string>): seq<Entry>
    requires forall i | 0 <= i < |t| :: t[i] != ""
  {
    Found(AfterTokens(m, t)) + Entries(LineEnd(AfterTokens(m, t)), later)
  }

  lemma FirstLine(m: Mode, lines: seq<string>, more: seq<string>)
    requires lines != []
    ensures Entries(m, lines + more) == EntriesFrom(LineStart(m), Tokens(lines[0]), lines[1..] + more)
  {
    assert (lines + more)[1..] == lines[1..] + more;
  }

  lemma {:induction false} LastLine(name: string, value: string, words: seq<string>, rest: seq<string>, t: seq<string>)
    requires PlainWords(words) && words != [] && t == Closed(words) + rest
    requires forall i | 0 <= i < |t| :: t[i] != ""
    ensures AfterTokens(Quoted(name, value), t) == Done(name, Extend(value, words))
  {
    hide PlainWords, Extend, AfterTokens;
    assert forall i | 0 <= i < |words| :: Closed(words)[i] == t[i];
    assert forall i | 0 <= i < |rest| :: rest[i] == t[|words| + i];
    ValueClosed(name, value, words);
    RestIgnored(Quoted(name, value), Closed(words), rest);
  }

  predicate ClosedOnLast(rest: seq<string>, t: seq<string>, later: seq<string>) {
    |if later == [] then t else Tokens(later[|later| - 1])| > |rest|
  }

  /** However the words of a quoted value are spread over lines, with whatever blanks between
      them and whatever after the closing quote, the value is the same. */
  lemma {:induction false} ValueSpread(name: string, value: string, words: seq<string>, rest: seq<string>,
                                       t: seq<string>, later: seq<string>, more: seq<string>)
    requires PlainWords(words) && words != [] && forall i | 0 <= i < |t| :: t[i] != ""
    requires t + AllTokens(later) == Closed(words) + rest && ClosedOnLast(rest, t, later)
    ensures EntriesFrom(Quoted(name, value), t, later + more)
            == [Entry(name, Extend(value, words))] + Entries(Idle, more)
    decreases |later|
  {
    hide Entries, AfterTokens, Closed, Extend, Tokens;
    if later == [] {
      assert t == t + AllTokens(later) && later + more == more;
      LastLine(name, value, words, rest, t);
    } else {
      ClosedSplit(words, rest, t, AllTokens(later));
      var here, left := words[..|t|], words[|t|..];
      WordsCollected(name, value, here);
      FirstLine(Quoted(name, Extend(value, here)), later, more);
      ValueSpread(name, Extend(value, here), left, rest, Tokens(later[0]), later[1..], more);
      ExtendConcat(value, here, left);
      assert words == here + left;
    }
  }

  /** The name and the opening quote stand on one line. */
  lemma {:induction false} EntryOpened(name: string, words: seq<string>, t: seq<string>)
    requires name != "" && name[0] != '#' && PlainWords(words) && words != []
    requires |t| > 1 && t[0] == name && t[1] == Quote(words)[0] && forall i | 0 <= i < |t| :: t[i] != ""
    ensures AfterTokens(Idle, t)
            == AfterTokens(if |words| == 1 then Done(name, words[0]) else Quoted(name, words[0]), t[2..])
  {
    assert t[1..][0] == t[1] && t[1..][1..] == t[2..];
    assert AfterToken(Idle, t[0]) == Named(name);
    var w := words[0];
    assert AfterTokens(Idle, t) == AfterTokens(AfterToken(Named(name), t[1]), t[2..]);
    if |words| == 1 {
      assert t[1] == "\"" + w + "\"" && LastWord(t[1]) == w;
    } else {
      assert t[1] == "\"" + w && Unquoted(t[1]) == w;
    }
  }

  lemma SingleWord(name: string, word: string, rest: seq<string>, t: seq<string>)
    requires name != "" && name[0] != '#' && PlainWord(word)
    requires |t| > 1 && t[0] == name && t[1] == Quote([word])[0] && forall i | 0 <= i < |t| :: t[i] != ""
    ensures AfterTokens(Idle, t) == Done(name, word)
  {
    EntryOpened(name, [word], t);
    RestIgnored(Done(name, word), [], t[2..]);
    assert [] + t[2..] == t[2..];
  }

  lemma LaterTokens(words: seq<string>, rest: seq<string>, t: seq<string>, u: seq<string>, name: string)
    requires |words| > 1 && |t| > 1 && t + u == [name] + Quote(words) + rest
    ensures t[2..] + u == Closed(words[1..]) + rest
  {
    assert t[2..] + u == (t + u)[2..];
    assert ([name] + Quote(words) + rest)[2..] == Closed(words)[1..] + rest;
    assert Closed(words)[1..] == Closed(words[1..]);
  }

  /** A quoted entry is found as soon as its name and the opening quote share a line; nothing
      else about its layout matters. */
  lemma {:induction false} EntrySpread(name: string, words: seq<string>, rest: seq<string>,
                                       lines: seq<string>, more: seq<string>)
    requires name != "" && name[0] != '#' && PlainWords(words) && words != [] && lines != []
    requires AllTokens(lines) == [name] + Quote(words) + rest
    requires |Tokens(lines[0])| > 1 && |Tokens(lines[|lines| - 1])| > |rest|
    ensures Entries(Idle, lines + more) == [Entry(name, Join(words))] + Entries(Idle, more)
  {
    hide Entries, AfterTokens, Closed, Extend, Tokens, PlainWords, IsWord;
    var t, later := Tokens(lines[0]), lines[1..];
    TokensAreNotEmpty(lines[0]);
    assert AllTokens(lines) == t + AllTokens(later);
    assert AllTokens(lines)[0] == name && AllTokens(lines)[1] == Quote(words)[0];
    FirstLine(Idle, lines, more);
    ExtendIsJoin(words[0], words);
    if |words| == 1 {
      assert words == [words[0]] && PlainWord(words[0]) by { FirstIsPlain(words); }
      SingleWord(name, words[0], rest, t);
      assert later == [] && later + more == more;
      assert Found(Done(name, words[0])) == [Entry(name, words[0])];
    } else {
      RestArePlain(words);
      EntryOpened(name, words, t);
      LaterTokens(words, rest, t, AllTokens(later), name);
      ValueSpread(name, words[0], words[1..], rest, t[2..], later, more);
    }
  }

  lemma TokensAreNotEmpty(line: string)
    ensures forall i | 0 <= i < |Tokens(line)| :: Tokens(line)[i] != ""
  {
  }

  lemma FirstIsPlain(words: seq<string>)
    requires PlainWords(words) && words != []
    ensures PlainWord(words[0])
  {
  }

  lemma RestArePlain(words: seq<string>)
    requires PlainWords(words) && words != []
    ensures PlainWords(words[1..])
  {
  }

  // ----- lines without quoted values

  /** A value without an opening quote is the second token of its line, as it stands, whatever
      follows it. */
  lemma {:induction false} PlainValue(line: string, name: string, w: string, rest: seq<string>, more: seq<string>)
    requires Tokens(line) == [name, w] + rest && name != "" && name[0] != '#' && w != "" && w[0] != '"'
    ensures Entries(Idle, [line] + more) == [Entry(name, w)] + Entries(Idle, more)
  {
    hide Entries, Tokens;
    TokensAreNotEmpty(line);
    FirstLine(Idle, [line], more);
    var t := Tokens(line);
    assert t[0] == name && t[1..][0] == w && t[1..][1..] == rest;
    assert AfterToken(Named(name), w) == Done(name, w);
    assert AfterTokens(Idle, t) == AfterTokens(Done(name, w), rest);
    DoneStays(Done(name, w), rest);
    assert [line][1..] + more == more;
  }

  lemma DoneStays(m: Mode, tokens: seq<string>)
    requires m.Done? && forall i | 0 <= i < |tokens| :: tokens[i] != ""
    ensures AfterTokens(m, tokens) == m
  {
    RestIgnored(m, [], tokens);
    assert [] + tokens == tokens;
  }

  /** Two quotes are the empty value, and so is a quote standing alone. */
  lemma {:induction false} EmptyValue(line: string, name: string, w: string, rest: seq<string>, more: seq<string>)
    requires Tokens(line) == [name, w] + rest && name != "" && name[0] != '#' && (w == "\"\"" || w == "\"")
    ensures Entries(Idle, [line] + more) == [Entry(name, "")] + Entries(Idle, more)
  {
    hide Entries, Tokens;
    TokensAreNotEmpty(line);
    FirstLine(Idle, [line], more);
    var t := Tokens(line);
    assert t[0] == name && t[1..][0] == w && t[1..][1..] == rest;
    assert AfterToken(Named(name), w) == Done(name, "");
    assert AfterTokens(Idle, t) == AfterTokens(Done(name, ""), rest);
    DoneStays(Done(name, ""), rest);
    assert [line][1..] + more == more;
  }

  /** A line whose first token starts with a number sign says nothing; nor does a line with a name
      only, or without any token. The next line is read as if it came first. */
  lemma {:induction false} LinesWithoutEntry(line: string, more: seq<string>)
    requires var t := Tokens(line); t == [] || (t[0] != "" && t[0][0] == '#') || |t| == 1
    ensures Entries(Idle, [line] + more) == Entries(Idle, more)
  {
    FirstLine(Idle, [line], more);
    var t := Tokens(line);
    assert [line][1..] + more == more;
    if t != [] && t[0][0] == '#' {
      assert AfterToken(Idle, t[0]) == Comment;
      CommentStays(t[1..]);
    } else if t != [] {
      assert t[1..] == [] && AfterTokens(Idle, t) == Named(t[0]);
      NameForgotten(t[0], more);
    }
  }

  lemma NameForgotten(name: string, more: seq<string>)
    ensures Entries(Named(name), more) == Entries(Idle, more)
  {
  }

  /** Inside a quoted value a token loses the quotes at its ends: one at its start, and one at its
      end, which closes the value. Quotes further in are kept. A quote standing alone closes. */
  lemma InnerQuotes(name: string, value: string, w: string)
    requires w != "" && w[0] != '"' && w[|w| - 1] != '"'
    ensures AfterToken(Quoted(name, value), "\"" + w) == Quoted(name, value + " " + w)
    ensures AfterToken(Quoted(name, value), w + "\"") == Done(name, value + " " + w)
    ensures AfterToken(Quoted(name, value), "\"" + w + "\"") == Done(name, value + " " + w)
    ensures AfterToken(Quoted(name, value), "\"") == Done(name, value + " ")
    ensures AfterToken(Named(name), "\"\"" + w) == Quoted(name, "\"" + w)
  {
    assert Unquoted("\"" + w) == w && LastWord(w + "\"") == w && LastWord("\"" + w + "\"") == w;
    assert Unquoted("\"\"" + w) == "\"" + w;
  }

  // ----- rendering

  /** A name with a value that is a single word, or with any number of words in quotes. */
  datatype Setting = Bare(name: string, word: string) | InQuotes(name: string, words: seq<string>)

  predicate WritableOne(s: Setting) {
    && PlainName(s.name)
    && match s
       case Bare(_, word) => IsWord(word) && word[0] != '"' && '\n' !in word
       case InQuotes(_, words) => PlainWords(words)
  }

  predicate Writable(settings: seq<Setting>) {
    forall i | 0 <= i < |settings| :: WritableOne(settings[i])
  }

  function ValueTokens(s: Setting): seq<string> {
    match s
    case Bare(_, word) => [word]
    case InQuotes(_, words) => if words == [] then ["\"\""] else Quote(words)
  }

  function Value(s: Setting): string {
    match s
    case Bare(_, word) => word
    case InQuotes(_, words) => if words == [] then "" else Join(words)
  }

  function RenderLine(s: Setting): string {
    Join([s.name] + ValueTokens(s))
  }

  /** One line for each setting: its name and its value. */
  function Render(settings: seq<Setting>): string {
    if settings == [] then "" else RenderLine(settings[0]) + "\n" + Render(settings[1..])
  }

  function Meant(settings: seq<Setting>): seq<Entry> {
    if settings == [] then [] else [Entry(settings[0].name, Value(settings[0]))] + Meant(settings[1..])
  }

  lemma {:induction false} JoinHasNoNewline(words: seq<string>)
    requires words != [] && forall i | 0 <= i < |words| :: '\n' !in words[i]
    ensures '\n' !in Join(words)
    decreases |words|
  {
    if |words| > 1 {
      JoinHasNoNewline(words[1..]);
    }
  }

  lemma ValueTokensAreWords(s: Setting)
    requires WritableOne(s)
    ensures forall i | 0 <= i < |ValueTokens(s)| :: IsWord(ValueTokens(s)[i]) && '\n' !in ValueTokens(s)[i]
  {
    if s.InQuotes? && s.words != [] {
      forall i | 0 <= i < |s.words| ensures IsWord(Quote(s.words)[i]) && '\n' !in Quote(s.words)[i] {
        QuoteIsWord(s.words, i);
      }
    }
  }

  lemma QuoteIsWord(words: seq<string>, i: nat)
    requires PlainWords(words) && i < |words|
    ensures IsWord(Quote(words)[i]) && '\n' !in Quote(words)[i]
  {
    var w := words[i];
    var before, after := if i == 0 then "\"" else "", if i == |words| - 1 then "\"" else "";
    assert PlainWord(w);
    assert Quote(words)[i] == before + (w + after);
  }

  lemma RenderedTokens(s: Setting)
    requires WritableOne(s)
    ensures Tokens(RenderLine(s)) == [s.name] + ValueTokens(s)
    ensures '\n' !in RenderLine(s)
  {
    var tokens := [s.name] + ValueTokens(s);
    ValueTokensAreWords(s);
    hide ValueTokens;
    TokensOfJoin(tokens);
    JoinHasNoNewline(tokens);
  }

  lemma RenderedBare(s: Setting, more: seq<string>)
    requires WritableOne(s) && s.Bare?
    ensures Entries(Idle, [RenderLine(s)] + more) == [Entry(s.name, Value(s))] + Entries(Idle, more)
  {
    RenderedTokens(s);
    BareIsPlain(s);
    hide Tokens, Entries, RenderLine, WritableOne;
    assert [s.name] + [s.word] == [s.name, s.word] + [];
    PlainValue(RenderLine(s), s.name, s.word, [], more);
  }

  lemma RenderedEmpty(s: Setting, more: seq<string>)
    requires WritableOne(s) && s.InQuotes? && s.words == []
    ensures Entries(Idle, [RenderLine(s)] + more) == [Entry(s.name, Value(s))] + Entries(Idle, more)
  {
    RenderedTokens(s);
    NameIsPlain(s);
    hide Tokens, Entries, RenderLine, WritableOne;
    assert [s.name] + ["\"\""] == [s.name, "\"\""] + [];
    EmptyValue(RenderLine(s), s.name, "\"\"", [], more);
  }

  lemma RenderedQuoted(s: Setting, more: seq<string>)
    requires WritableOne(s) && s.InQuotes? && s.words != []
    ensures Entries(Idle, [RenderLine(s)] + more) == [Entry(s.name, Value(s))] + Entries(Idle, more)
  {
    RenderedTokens(s);
    NameIsPlain(s);
    hide Tokens, Entries, RenderLine, Quote, Join, PlainWords;
    var line := RenderLine(s);
    assert AllTokens([line]) == Tokens(line) + AllTokens([]);
    EntrySpread(s.name, s.words, [], [line], more);
  }

  /** A rendered line gives its setting back. */
  lemma RenderedLine(s: Setting, more: seq<string>)
    requires WritableOne(s)
    ensures Entries(Idle, [RenderLine(s)] + more) == [Entry(s.name, Value(s))] + Entries(Idle, more)
  {
    hide Entries, RenderLine, Value, WritableOne;
    if s.Bare? {
      RenderedBare(s, more);
    } else if s.words == [] {
      RenderedEmpty(s, more);
    } else {
      RenderedQuoted(s, more);
    }
  }

  lemma NameIsPlain(s: Setting)
    requires WritableOne(s)
    ensures s.name != "" && s.name[0] != '#'
  {
  }

  lemma BareIsPlain(s: Setting)
    requires WritableOne(s) && s.Bare?
    ensures s.name != "" && s.name[0] != '#' && s.word != "" && s.word[0] != '"'
  {
  }

  /** Parsing what was rendered gives the settings back, in order. */
  lemma {:induction false} RenderedFile(settings: seq<Setting>)
    requires Writable(settings)
    ensures Terminated(Render(settings))
    ensures Entries(Idle, Lines(Render(settings))) == Meant(settings)
    decreases |settings|
  {
    hide Tokens, Quote, AfterTokens, Lines, Span, Entries, RenderLine, WritableOne;
    if settings == [] {
      NothingRendered();
    } else {
      var s, rest := settings[0], Render(settings[1..]);
      RenderedFile(settings[1..]);
      RenderedTokens(s);
      FirstLineOfText(RenderLine(s), rest);
      RenderedLine(s, Lines(rest));
    }
  }

  lemma NothingRendered()
    ensures Lines("") == [] && Entries(Idle, []) == []
  {
  }

  lemma FirstLineOfText(line: string, rest: string)
    requires '\n' !in line
    ensures Lines(line + "\n" + rest) == [line] + Lines(rest)
  {
    var text := line + "\n" + rest;
    SpanIs(text, |line|);
    assert text[..|line|] == line && text[|line| + 1..] == rest;
  }

  /** Whatever pieces a rendered file arrives in, loading it sets each known name to its last
      value, unless a line is too long, which ends the program. */
  method LoadRendered(parser: Parser, chunks: seq<string>, settings: seq<Setting>) returns (outcome: Outcome)
    requires parser.Stands(Idle) && Writable(settings)
    requires Pieces(chunks) && Flatten(chunks) == Render(settings)
    modifies parser
    ensures outcome == if Fits(NonEmpty(Lines(Render(settings)))) then Fine else TooLong
    ensures outcome.Fine? ==> parser.values == AssignAll(old(parser.values), Meant(settings))
  {
    RenderedFile(settings);
    var reader := new Reader(chunks);
    if reader.Loses(true) {
      reader.LostRest();
    }
    SeenAll(Render(settings));
    NoTail(Render(settings));
    outcome := parser.ParseConfigFile(reader);
  }

  lemma NoTail(text: string)
    requires Terminated(text)
    ensures Tail(text) == ""
  {
  }
}
