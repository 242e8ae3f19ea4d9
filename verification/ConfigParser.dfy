/** The configuration file: tokens, the parser's state machine, and the entries it finds. */
module ConfigParser {

  import opened LineText
  import opened LineReader

  // ----- tokens

  predicate Blank(c: char) {
    c == ' ' || c == '\t'
  }

  /** Length of the leading blanks. */
  function Blanks(s: string): (n: nat)
    ensures n <= |s| && (forall i | 0 <= i < n :: Blank(s[i])) && (n < |s| ==> !Blank(s[n]))
  {
    if s == "" || !Blank(s[0]) then 0 else 1 + Blanks(s[1..])
  }

  /** Length of the part before the first blank. */
  function Word(s: string): (n: nat)
    ensures n <= |s| && (forall i | 0 <= i < n :: !Blank(s[i])) && (n < |s| ==> Blank(s[n]))
  {
    if s == "" || Blank(s[0]) then 0 else 1 + Word(s[1..])
  }

  predicate IsWord(w: string) {
    w != "" && forall i | 0 <= i < |w| :: !Blank(w[i])
  }

  function Tokens(line: string): (tokens: seq<string>)
    ensures forall i | 0 <= i < |tokens| :: IsWord(tokens[i])
    decreases |line|
  {
    var s := line[Blanks(line)..];
    if s == "" then [] else [s[..Word(s)]] + Tokens(s[Word(s)..])
  }

  /** Takes a token off the front: the first run of characters that are not blank, as far as it
      goes. It is empty when there is none. */
  method GetToken(line: string) returns (token: string, rest: string)
    ensures |token| + |rest| <= |line|
    ensures var k := |line| - |token| - |rest|;
            && line[k..] == token + rest && (forall i | 0 <= i < k :: Blank(line[i]))
            && (token != "" ==> IsWord(token)) && (rest == "" || Blank(rest[0]))
            && (token == "" ==> rest == "")
    ensures token == "" <==> Tokens(line) == []
    ensures token != "" ==> Tokens(line) == [token] + Tokens(rest) && |rest| < |line|
  {
    hide Tokens, Blanks, Word, Blank;
    TokensStep(line);
    var s := line[Blanks(line)..];
    token, rest := s[..Word(s)], s[Word(s)..];
    SplitWord(s);
    assert s == token + rest && |line| - |token| - |rest| == Blanks(line);
  }

  lemma SplitWord(s: string)
    requires s == "" || !Blank(s[0])
    ensures var w, rest := s[..Word(s)], s[Word(s)..];
            && (w == "" <==> s == "") && (w != "" ==> IsWord(w)) && (rest == "" || Blank(rest[0])) && |rest| <= |s|
  {
    hide Blank;
  }

  lemma TokensStep(line: string)
    ensures var s := line[Blanks(line)..];
            Tokens(line) == if s == "" then [] else [s[..Word(s)]] + Tokens(s[Word(s)..])
  {
    hide Blanks, Word;
  }

  /** Words with one space between them. */
  function Join(words: seq<string>): string
    requires words != []
  {
    if |words| == 1 then words[0] else words[0] + " " + Join(words[1..])
  }

  lemma WordIs(w: string, s: string)
    requires forall i | 0 <= i < |w| :: !Blank(w[i])
    requires s == "" || Blank(s[0])
    ensures Word(w + s) == |w|
  {
    var t, n := w + s, Word(w + s);
    hide Word;
    assert forall i | 0 <= i < |w| :: t[i] == w[i];
    assert s != "" ==> t[|w|] == s[0];
  }

  lemma BlankFirst(c: char, s: string)
    requires Blank(c)
    ensures Tokens([c] + s) == Tokens(s)
  {
    var t := [c] + s;
    assert t[1..] == s && Blanks(t) == 1 + Blanks(s);
    hide Blanks;
    assert t[1 + Blanks(s)..] == s[Blanks(s)..];
    TokensStep(t);
    TokensStep(s);
  }

  lemma FirstToken(w: string, s: string)
    requires IsWord(w) && (s == "" || Blank(s[0]))
    ensures Tokens(w + s) == [w] + Tokens(s)
  {
    WordIs(w, s);
    assert Blanks(w + s) == 0 && (w + s)[0..] == w + s;
    TokensStep(w + s);
    hide Tokens, Blanks, Word;
  }

  /** Spaces and tabs, any number of them, separate tokens and do nothing else. */
  lemma {:induction false} BlanksSeparate(gap: string, s: string)
    requires forall i | 0 <= i < |gap| :: gap[i] == ' ' || gap[i] == '\t'
    ensures Tokens(gap + s) == Tokens(s)
  {
    hide Tokens;
    if gap == "" {
      assert gap + s == s;
    } else {
      BlanksSeparate(gap[1..], s);
      BlankFirst(gap[0], gap[1..] + s);
      assert gap + s == [gap[0]] + (gap[1..] + s);
    }
  }

  /** Any other characters make a token, up to the next space or tab. */
  lemma TokenIs(w: string, gap: string, s: string)
    requires w != "" && forall i | 0 <= i < |w| :: w[i] != ' ' && w[i] != '\t'
    requires gap != "" && forall i | 0 <= i < |gap| :: gap[i] == ' ' || gap[i] == '\t'
    ensures Tokens(w) == [w] && Tokens(w + gap + s) == [w] + Tokens(s)
  {
    FirstToken(w, "");
    NoTokens();
    assert w + "" == w;
    FirstToken(w, gap + s);
    hide Tokens;
    BlanksSeparate(gap, s);
    assert w + gap + s == w + (gap + s);
  }

  /** Splitting into tokens undoes joining words. */
  lemma {:induction false} TokensOfJoin(words: seq<string>)
    requires words != [] && forall i | 0 <= i < |words| :: IsWord(words[i])
    ensures Tokens(Join(words)) == words
  {
    hide Tokens, Word, Blanks;
    if |words| == 1 {
      FirstToken(words[0], "");
      NoTokens();
      assert words[0] + "" == words[0];
    } else {
      var rest := Join(words[1..]);
      TokensOfJoin(words[1..]);
      FirstToken(words[0], " " + rest);
      assert Join(words) == words[0] + (" " + rest);
      assert " " == [' '];
      BlankFirst(' ', rest);
    }
  }

  lemma NoTokens()
    ensures Tokens("") == []
  {
  }

  // ----- what a file means

  datatype Entry = Entry(name: string, value: string)

  /** Where the parser stands: looking for a name, for the value of a name, inside a quoted
      value, or past the entry or comment of the current line. */
  datatype Mode =
    | Idle
    | Named(name: string)
    | Quoted(name: string, value: string)
    | Done(name: string, value: string)
    | Comment

  /** A token with its opening quote taken off. */
  function Unquoted(token: string): string {
    if token != "" && token[0] == '"' then token[1..] else token
  }

  /** The token ends a quoted value; a quote standing alone does. */
  predicate Closes(token: string)
    requires token != ""
  {
    token[|token| - 1] == '"'
  }

  /** What a closing token adds to the value. */
  function LastWord(token: string): string
    requires token != "" && Closes(token)
  {
    if token == "\"" then "" else Unquoted(token)[..|Unquoted(token)| - 1]
  }

  function AfterToken(m: Mode, token: string): Mode
    requires token != ""
  {
    match m
    case Idle => if token[0] == '#' then Comment else Named(token)
    case Named(name) =>
      if token[0] != '"' then Done(name, token)
      else if Closes(token) then Done(name, LastWord(token))
      else Quoted(name, Unquoted(token))
    case Quoted(name, value) =>
      if Closes(token) then Done(name, value + " " + LastWord(token))
      else Quoted(name, value + " " + Unquoted(token))
    case Done(_, _) => m
    case Comment => m
  }

  function AfterTokens(m: Mode, tokens: seq<string>): Mode
    requires forall i | 0 <= i < |tokens| :: tokens[i] != ""
    decreases |tokens|
  {
    if tokens == [] then m else AfterTokens(AfterToken(m, tokens[0]), tokens[1..])
  }

  /** A name whose line ends before its value is dropped. */
  function LineStart(m: Mode): Mode {
    if m.Named? then Idle else m
  }

  function LineEnd(m: Mode): Mode {
    if m.Done? || m.Comment? then Idle else m
  }

  function Found(m: Mode): seq<Entry> {
    if m.Done? then [Entry(m.name, m.value)] else []
  }

  /** The entries in the lines of a file, in order. */
  function Entries(m: Mode, lines: seq<string>): seq<Entry>
    decreases |lines|
  {
    if lines == [] then []
    else
      var after := AfterTokens(LineStart(m), Tokens(lines[0]));
      Found(after) + Entries(LineEnd(after), lines[1..])
  }

  /** Setting a value: unknown names are refused. */
  function Assign(values: map<string, string>, e: Entry): map<string, string> {
    if e.name in values then values[e.name := e.value] else values
  }

  function AssignAll(values: map<string, string>, entries: seq<Entry>): map<string, string> {
    if entries == [] then values else AssignAll(Assign(values, entries[0]), entries[1..])
  }

  /** No name appears or disappears, and each known name has the value of its last entry. */
  lemma {:induction false} LastValueWins(values: map<string, string>, entries: seq<Entry>, name: string)
    ensures AssignAll(values, entries).Keys == values.Keys
    ensures name in values && (forall i | 0 <= i < |entries| :: entries[i].name != name) ==>
              AssignAll(values, entries)[name] == values[name]
    ensures forall i | 0 <= i < |entries| ::
              name in values && entries[i].name == name && (forall j | i < j < |entries| :: entries[j].name != name) ==>
                AssignAll(values, entries)[name] == entries[i].value
  {
    if entries != [] {
      LastValueWins(Assign(values, entries[0]), entries[1..], name);
      forall i | 0 <= i < |entries| && name in values && entries[i].name == name
                 && (forall j | i < j < |entries| :: entries[j].name != name)
        ensures AssignAll(values, entries)[name] == entries[i].value
      {
        if i > 0 {
          assert entries[1..][i - 1] == entries[i];
        }
      }
    }
  }

  lemma AssignAllConcat(values: map<string, string>, a: seq<Entry>, b: seq<Entry>)
    ensures AssignAll(values, a + b) == AssignAll(AssignAll(values, a), b)
  {
    if a == [] {
      assert a + b == b;
    } else {
      assert (a + b)[1..] == a[1..] + b;
      AssignAllConcat(Assign(values, a[0]), a[1..], b);
    }
  }

  /** Empty lines make no difference, not even between a name and its missing value. */
  lemma {:induction false} EmptyLine(m: Mode, lines: seq<string>)
    requires !m.Done? && !m.Comment?
    ensures Entries(m, [""] + lines) == Entries(m, lines)
  {
    assert Tokens("") == [];
    assert ([""] + lines)[1..] == lines;
  }

  lemma {:induction false} EmptyLines(m: Mode, lines: seq<string>)
    requires !m.Done? && !m.Comment?
    ensures Entries(m, NonEmpty(lines)) == Entries(m, lines)
    decreases |lines|
  {
    if lines != [] {
      var rest := lines[1..];
      if lines[0] == "" {
        EmptyLines(m, rest);
        EmptyLine(m, rest);
        assert [""] + rest == lines && NonEmpty(lines) == [] + NonEmpty(rest) == NonEmpty(rest);
      } else {
        var after := AfterTokens(LineStart(m), Tokens(lines[0]));
        EmptyLines(LineEnd(after), rest);
        assert NonEmpty(lines)[1..] == NonEmpty(rest);
      }
    }
  }

  lemma CommentStays(tokens: seq<string>)
    requires forall i | 0 <= i < |tokens| :: tokens[i] != ""
    ensures AfterTokens(Comment, tokens) == Comment
  {
  }

  /** Setting a value again changes nothing. */
  lemma SameEntry(values: map<string, string>, before: Mode, after: Mode, token: string)
    requires token != "" && after == AfterToken(before, token)
    ensures AssignAll(AssignAll(values, Found(before)), Found(after)) == AssignAll(values, Found(after))
  {
  }

  lemma NoEntries(values: map<string, string>, m: Mode)
    ensures AssignAll(values, Entries(m, [])) == values
  {
  }

  lemma {:induction false} LineEntries(values: map<string, string>, m: Mode, line: string, rest: seq<string>)
    requires !m.Done? && !m.Comment?
    ensures var after := AfterTokens(LineStart(m), Tokens(line));
            AssignAll(values, Entries(m, Kept(line) + rest))
            == AssignAll(AssignAll(values, Found(after)), Entries(LineEnd(after), rest))
  {
    var after := AfterTokens(LineStart(m), Tokens(line));
    if line == "" {
      EmptyLine(m, rest);
    }
    assert ([line] + rest)[1..] == rest;
    AssignAllConcat(values, Found(after), Entries(LineEnd(after), rest));
    assert [] + rest == rest;
  }

  // ----- the parser

  class Parser {
    var values: map<string, string>   // the program's configuration
    var property: string
    var getProperty: bool
    var value: string
    var getValue: bool
    var isString: bool
    var nextLine: bool

    ghost predicate Stands(m: Mode)
      reads this
    {
      && getValue == (m.Named? || m.Quoted?)
      && getProperty == (m.Idle? || m.Comment?)
      && isString == m.Quoted?
      && nextLine == (m.Done? || m.Comment?)
      && (m.Named? || m.Quoted? || m.Done? ==> property == m.name)
      && value == (if m.Quoted? || m.Done? then m.value else "")
      && (m.Quoted? ==> m.value != "")
    }

    constructor (values: map<string, string>)
      ensures this.values == values && Stands(Idle)
    {
      this.values := values;
      property, value := "", "";
      getProperty, getValue, isString, nextLine := true, false, false, false;
    }

    /** Refuses a name that was not set up beforehand. */
    method SetConfigValue(name: string, newValue: string) returns (known: bool)
      modifies this`values
      ensures known == (name in old(values))
      ensures values == Assign(old(values), Entry(name, newValue))
    {
      known := name in values;
      if known {
        values := values[name := newValue];
      }
    }

    /** Adds a token to the value that is being read. */
    method TakeValue(token: string, ghost m: Mode)
      requires token != "" && Stands(m) && getValue
      modifies this`value, this`getValue, this`isString
      ensures var after := AfterToken(m, token);
              && property == after.name && value == after.value
              && getValue == isString == after.Quoted? && (after.Quoted? ==> value != "")
    {
      if value != "" {
        value := value + " ";
      }
      var start := 0;
      if token[0] == '"' {
        isString := true;
        start := 1;
      }
      // With a lone quote the character looked at is the opening quote itself.
      if isString && token[|token| - 1] == '"' {
        value := value + (if start == |token| then "" else token[start..|token| - 1]);
        isString := false;
        getValue := false;
      } else {
        value := value + token[start..];
        if !isString {
          getValue := false;
        }
      }
    }

    method ParseToken(token: string, ghost m: Mode) returns (comment: bool)
      requires token != "" && Stands(m) && !m.Comment?
      modifies this
      ensures Stands(AfterToken(m, token)) && comment == AfterToken(m, token).Comment?
      ensures values == AssignAll(old(values), Found(AfterToken(m, token)))
    {
      if getProperty {
        property := token;
        if property[0] == '#' {
          nextLine := true;
          return true;
        }
        getProperty := false;
        getValue := true;
      } else if getValue {
        TakeValue(token, m);
      }
      if !getProperty && !getValue {
        var known := SetConfigValue(property, value);
        nextLine := true;
      }
      comment := false;
    }

    method ParseTokens(line: string, ghost m: Mode)
      requires Stands(m) && !m.Comment? && !m.Done?
      modifies this
      ensures Stands(AfterTokens(m, Tokens(line)))
      ensures values == AssignAll(old(values), Found(AfterTokens(m, Tokens(line))))
    {
      hide Tokens, AfterToken, Stands;
      ghost var now := m;
      var token, rest := GetToken(line);
      ghost var left := Tokens(line);
      while token != ""
        invariant Stands(now) && !now.Comment?
        invariant forall i | 0 <= i < |left| :: left[i] != ""
        invariant left == if token == "" then [] else [token] + Tokens(rest)
        invariant AfterTokens(now, left) == AfterTokens(m, Tokens(line))
        invariant values == AssignAll(old(values), Found(now))
        decreases |left|
      {
        ghost var before := now;
        var comment := ParseToken(token, now);
        now, left := AfterToken(now, token), left[1..];
        SameEntry(old(values), before, now, token);
        if comment {
          CommentStays(left);
          return;
        }
        token, rest := GetToken(rest);
      }
    }

    method ParseLine(line: string, ghost m: Mode)
      requires Stands(m) && !m.Done? && !m.Comment?
      modifies this
      ensures var after := AfterTokens(LineStart(m), Tokens(line));
              Stands(LineEnd(after)) && values == AssignAll(old(values), Found(after))
    {
      hide AfterTokens, Tokens;
      if getValue && !isString {
        getValue := false;
        getProperty := true;
      }
      ParseTokens(line, LineStart(m));
      if nextLine {
        property, value := "", "";
        nextLine := false;
        getProperty, getValue := true, false;
      }
    }

    /** One line, seen as the first of those still to come. */
    method ParseNext(line: string, ghost m: Mode, ghost rest: seq<string>) returns (ghost next: Mode)
      requires Stands(m) && !m.Done? && !m.Comment?
      modifies this
      ensures Stands(next) && !next.Done? && !next.Comment?
      ensures AssignAll(old(values), Entries(m, Kept(line) + rest)) == AssignAll(values, Entries(next, rest))
    {
      hide Entries, AssignAll, Stands, AfterTokens, Tokens;
      LineEntries(values, m, line, rest);
      ParseLine(line, m);
      next := LineEnd(AfterTokens(LineStart(m), Tokens(line)));
    }

    /** Reads the whole file. That ends well exactly if all lines fit; the entries are then those
        of the file, or of the file without its last character if that is lost. */
    method ParseConfigFile(reader: Reader) returns (outcome: Outcome)
      requires reader.Valid() && Stands(Idle)
      modifies this, reader
      ensures outcome.Fine? <==> Fits(old(reader.Yields()))
      ensures outcome.Overrun? <==> old(reader.Overruns())
      ensures var text := Seen(old(reader.Remaining()), old(reader.Loses(true)));
              outcome.Fine? ==> values == AssignAll(old(values), Entries(Idle, Lines(text)))
      ensures outcome.Fine? ==> reader.Remaining() == "" && reader.readLen == 0 && reader.chunks == []
    {
      hide Entries, Lines, NonEmpty, Fits, AssignAll, Stands, Kept, Seen, LastLost, CleanAfter, ReadEdge, EndsInOverrun;
      ghost var all, over := reader.Yields(), reader.Overruns();
      EmptyLines(Idle, Lines(Seen(reader.Remaining(), reader.Loses(true))));
      hide reader.Yields, reader.Overruns, reader.Loses;
      ghost var m, parsed, left := Idle, [], all;
      FitsKept("");
      var line, len;
      line, len, outcome := reader.ReadNonEmpty();
      while outcome.Fine? && len != -1
        invariant reader.Valid() && Stands(m) && !m.Done? && !m.Comment?
        invariant all == parsed + left && Fits(parsed)
        invariant !outcome.Fine? ==> !Fits(left)
        invariant outcome.Fine? ==> if len == -1 then left == [] && reader.Remaining() == ""
                                    else |line| <= LINE_MAX_SIZE && left == Kept(line) + reader.Yields()
        invariant if outcome.Fine? && len != -1 then over == reader.Overruns() else over <==> outcome.Overrun?
        invariant AssignAll(old(values), Entries(Idle, all)) == AssignAll(values, Entries(m, left))
        decreases if outcome.Fine? then |reader.Remaining()| + (if len == -1 then 1 else 2) else 0
      {
        ghost var rest := reader.Yields();
        m := ParseNext(line, m, rest);
        FitsParts(parsed, Kept(line));
        FitsKept(line);
        assert parsed + left == parsed + Kept(line) + rest;
        parsed, left := parsed + Kept(line), rest;
        line, len, outcome := reader.ReadNonEmpty();
      }
      NoEntries(values, m);
      FitsParts(parsed, left);
    }
  }
}
