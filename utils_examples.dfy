/**
 * The cases of utils/utils_test.go, stated about the scan.  The tests expect
 * `ExtractJsonFromString` to return start and end offsets; the function
 * returns none, so the offsets appear here as the position of the first `{`
 * and the end of the text the scan accepts.
 */
module UtilsExamples {
  import opened Wrappers
  import opened Utils

  /** A scan result seen from a string that has `p` in front. */
  function Behind(p: string, r: Stop): Stop
  {
    if r.Found? then Found(p + r.raw) else r
  }

  lemma PlainConcat(a: string, b: string)
    requires Plain(a) && Plain(b)
    ensures Plain(a + b)
  {
    forall k | 0 <= k < |a + b| ensures !IsOpener((a + b)[k]) && !IsCloser((a + b)[k]) {
      if k >= |a| {
        assert (a + b)[k] == b[k - |a|];
      }
    }
  }

  /** Scanning `p + t` from `|p|` is scanning `t` from the start, with `p` in front of what is accepted. */
  lemma {:induction false} ScanFromShift(p: string, t: string, i: nat, st: seq<char>)
    requires i <= |t|
    ensures ScanFrom(p + t, |p| + i, st) == Behind(p, ScanFrom(t, i, st))
    decreases |t| - i
  {
    var s := p + t;
    assert s[..|p| + i] == p + t[..i];
    if i < |t| {
      assert s[|p| + i] == t[i];
      var c := t[i];
      if IsOpener(c) {
        ScanFromShift(p, t, i + 1, st + [c]);
      } else if |st| == 0 {
      } else if c == '}' || c == ']' {
        ScanFromShift(p, t, i + 1, st[..|st| - 1]);
      } else {
        ScanFromShift(p, t, i + 1, st);
      }
    }
  }

  /** An opener at the head is pushed. */
  lemma ScanHeadOpen(c: char, t: string, st: seq<char>)
    requires IsOpener(c)
    ensures ScanFrom([c] + t, 0, st) == Behind([c], ScanFrom(t, 0, st + [c]))
  {
    assert ([c] + t)[0] == c;
    ScanFromShift([c], t, 0, st + [c]);
  }

  /** A closer at the head that matches the top of the stack pops it. */
  lemma ScanHeadClose(c: char, t: string, st: seq<char>)
    requires st != [] && IsCloser(c) && Closes(st[|st| - 1], c)
    ensures ScanFrom([c] + t, 0, st) == Behind([c], ScanFrom(t, 0, st[..|st| - 1]))
  {
    assert ([c] + t)[0] == c;
    ScanFromShift([c], t, 0, st[..|st| - 1]);
  }

  /** A `}` at the head that meets `[` fails. */
  lemma ScanHeadMismatch(t: string, st: seq<char>)
    requires st != [] && st[|st| - 1] == '['
    ensures ScanFrom(['}'] + t, 0, st) == Unclosed('[')
  {
    assert (['}'] + t)[0] == '}';
  }

  /** Any other character at the head is consumed while something is open. */
  lemma ScanHeadPlain(c: char, t: string, st: seq<char>)
    requires st != [] && !IsOpener(c) && !IsCloser(c)
    ensures ScanFrom([c] + t, 0, st) == Behind([c], ScanFrom(t, 0, st))
  {
    assert ([c] + t)[0] == c;
    ScanFromShift([c], t, 0, st);
  }

  /** Text without brackets is consumed whole while something is open. */
  lemma {:induction false} ScanPlain(p: string, t: string, st: seq<char>)
    requires Plain(p) && st != []
    ensures ScanFrom(p + t, 0, st) == Behind(p, ScanFrom(t, 0, st))
    decreases |p|
  {
    if p != [] {
      var q := p[1..];
      assert p + t == [p[0]] + (q + t);
      assert Plain(q);
      ScanHeadPlain(p[0], q + t, st);
      ScanPlain(q, t, st);
      assert [p[0]] + q == p;
    } else {
      assert p + t == t;
    }
  }

  /** Nesting over text without brackets ahead of `t`. */
  lemma NestPlainThen(base: seq<char>, p: string, t: string)
    requires Plain(p)
    ensures Nest(base, p + t) == Nest(base, t)
  {
    NestAppend(base, p, t);
    NestPlain(base, p);
  }

  /** Nesting over one character ahead of `t`. */
  lemma NestHead(base: seq<char>, c: char, t: string)
    ensures Nest(base, [c] + t) == match Step(base, c) case None => None case Some(m) => Nest(m, t)
  {
    NestAppend(base, [c], t);
    NestSnoc(base, [], c);
    assert [] + [c] == [c];
  }

  const DataWasSaved := "Data was saved "
  const ToDB := " to DB"
  const SavedToDB := "Data was saved to DB "
  const SpaceSavedToDB := " Data was saved to DB"

  const Name := "\"name\":\"John Doe\""
  const Email := "\"email\":" + "\"john@example.com\""
  /** The body of `simpleJson`: `{` SimpleBody `}`. */
  const SimpleBody := Name + (", " + Email)
  const SimpleJson := "{" + SimpleBody + "}"

  const Info := ", \"info\": "
  const Date := "\"date\": \"Today\", " + "\"group\": "
  const Sports := "\"name\": \"sports\", " + "\"id\": 1"
  /** The body of `complexJson`. */
  const ComplexBody := Name + (", " + (Email + (Info + ("[" + ("{" + (Date + ("{" + (Sports + ("}" + ("}" + "]"))))))))))
  const ComplexJson := "{" + ComplexBody + "}"
  /** `complexBadJson`: the `]` of `info` is a `}`. */
  const ComplexBadJson := "{" + (Name + (", " + (Email + (Info + ("[" + ("{" + (Date + ("{" + (Sports + ("}" + ("}" + "}")))))))))))
  /** `simpleBadJson`: the closing `}` is missing. */
  const SimpleBadJson := "{" + SimpleBody

  lemma PlainWords()
    ensures Plain(Name) && Plain(", ") && Plain(Info) && Plain(ToDB)
    ensures Plain("\"email\":") && Plain("\"john@example.com\"")
    ensures Plain("\"date\": \"Today\", ") && Plain("\"group\": ")
    ensures Plain("\"name\": \"sports\", ") && Plain("\"id\": 1")
  {
  }

  lemma PlainPieces()
    ensures Plain(Name) && Plain(", ") && Plain(Email) && Plain(Info) && Plain(Date) && Plain(Sports) && Plain(ToDB)
    ensures Plain(SimpleBody)
  {
    PlainWords();
    PlainConcat("\"email\":", "\"john@example.com\"");
    PlainConcat("\"date\": \"Today\", ", "\"group\": ");
    PlainConcat("\"name\": \"sports\", ", "\"id\": 1");
    PlainConcat(", ", Email);
    PlainConcat(Name, ", " + Email);
  }

  lemma NoBraceInPrefixes()
    ensures '{' !in DataWasSaved && '{' !in SavedToDB
  {
  }

  lemma Lengths()
    ensures |DataWasSaved| == 15 && |SavedToDB| == 21
    ensures |SimpleBody| == 45 && |SimpleJson| == 47 && |ComplexBody| == 112 && |ComplexJson| == 114
  {
  }

  lemma SimpleBodyBalanced()
    ensures Nest([], SimpleBody) == Some([])
  {
    PlainPieces();
    NestPlain([], SimpleBody);
  }

  lemma ComplexBodyBalanced()
    ensures Nest([], ComplexBody) == Some([])
  {
    PlainPieces();
    var t4 := "{" + (Sports + ("}" + ("}" + "]")));
    var t3 := Date + t4;
    var t2 := "{" + t3;
    var t1 := "[" + t2;
    NestPlainThen([], Name, ", " + (Email + (Info + t1)));
    NestPlainThen([], ", ", Email + (Info + t1));
    NestPlainThen([], Email, Info + t1);
    NestPlainThen([], Info, t1);
    NestHead([], '[', t2);
    var empty: seq<char> := [];
    assert empty + ['['] == ['['];
    NestHead(['['], '{', t3);
    assert ['['] + ['{'] == ['[', '{'];
    NestPlainThen(['[', '{'], Date, t4);
    NestHead(['[', '{'], '{', Sports + ("}" + ("}" + "]")));
    assert ['[', '{'] + ['{'] == ['[', '{', '{'];
    NestPlainThen(['[', '{', '{'], Sports, "}" + ("}" + "]"));
    NestHead(['[', '{', '{'], '}', "}" + "]");
    assert ['[', '{', '{'][..2] == ['[', '{'];
    NestHead(['[', '{'], '}', "]");
    assert ['[', '{'][..1] == ['['];
    var none: string := [];
    assert "]" == [']'] + none;
    NestHead(['['], ']', none);
    assert ['['][..0] == [];
    assert Nest(['['], "]") == Some([]);
    assert Nest(['[', '{'], "}" + "]") == Some([]);
    assert Nest(['[', '{', '{'], "}" + ("}" + "]")) == Some([]);
    assert Nest(['[', '{', '{'], Sports + ("}" + ("}" + "]"))) == Some([]);
  }

  /** "Extract simple JSON from middle of a string": start 15, end 62. */
  lemma SimpleJsonInMiddle()
    ensures var content := DataWasSaved + SimpleJson + ToDB;
      IndexOf(content, '{') == 15 && Scan(content[15..]) == Found(content[15..62]) && content[15..62] == SimpleJson
  {
    NoBraceInPrefixes();
    Lengths();
    SimpleBodyBalanced();
    ExtractRegion(DataWasSaved, SimpleBody, ToDB);
  }

  /** "Extract simple JSON from end of a string": start 21, end 68. */
  lemma SimpleJsonAtEnd()
    ensures var content := SavedToDB + SimpleJson + "";
      IndexOf(content, '{') == 21 && Scan(content[21..]) == Found(content[21..68]) && content[21..68] == SimpleJson
  {
    NoBraceInPrefixes();
    Lengths();
    SimpleBodyBalanced();
    ExtractRegion(SavedToDB, SimpleBody, "");
  }

  /** "Extract JSON from start of a string": start 0, end 47. */
  lemma SimpleJsonAtStart()
    ensures var content := "" + SimpleJson + SpaceSavedToDB;
      IndexOf(content, '{') == 0 && Scan(content[0..]) == Found(content[0..47]) && content[0..47] == SimpleJson
  {
    NoBraceInPrefixes();
    Lengths();
    SimpleBodyBalanced();
    ExtractRegion("", SimpleBody, SpaceSavedToDB);
  }

  /** "Extract complex JSON from middle of a string": start 15, end 129. */
  lemma ComplexJsonInMiddle()
    ensures var content := DataWasSaved + ComplexJson + ToDB;
      IndexOf(content, '{') == 15 && Scan(content[15..]) == Found(content[15..129]) && content[15..129] == ComplexJson
  {
    NoBraceInPrefixes();
    Lengths();
    ComplexBodyBalanced();
    ExtractRegion(DataWasSaved, ComplexBody, ToDB);
  }

  /** "Extract complex JSON from start of a string": start 0, end 114. */
  lemma ComplexJsonAtStart()
    ensures var content := "" + ComplexJson + SpaceSavedToDB;
      IndexOf(content, '{') == 0 && Scan(content[0..]) == Found(content[0..114]) && content[0..114] == ComplexJson
  {
    NoBraceInPrefixes();
    Lengths();
    ComplexBodyBalanced();
    ExtractRegion("", ComplexBody, SpaceSavedToDB);
  }

  /** "Extract complex JSON from end of a string": start 21, end 135. */
  lemma ComplexJsonAtEnd()
    ensures var content := SavedToDB + ComplexJson + "";
      IndexOf(content, '{') == 21 && Scan(content[21..]) == Found(content[21..135]) && content[21..135] == ComplexJson
  {
    NoBraceInPrefixes();
    Lengths();
    ComplexBodyBalanced();
    ExtractRegion(SavedToDB, ComplexBody, "");
  }

  /** `simpleBadJson` and what follows it: nothing closes the `{`. */
  lemma SimpleBadScan()
    ensures Scan(SimpleBadJson + ToDB) == NotCompleted
  {
    PlainPieces();
    var tail := SimpleBody + ToDB;
    assert SimpleBadJson + ToDB == ['{'] + tail;
    var empty: seq<char> := [];
    ScanHeadOpen('{', tail, empty);
    assert empty + ['{'] == ['{'];
    PlainConcat(SimpleBody, ToDB);
    assert tail + [] == tail;
    ScanPlain(tail, [], ['{']);
  }

  /** "Invalid JSON with only opening curly bracket": the input runs out with `{` open. */
  lemma SimpleBadJsonNotCompleted(indent: string -> Indented)
    ensures var content := DataWasSaved + SimpleBadJson + ToDB;
      IndexOf(content, '{') == 15 &&
      Report(Scan(content[15..]), indent) == Error(NotCompletedMessage)
  {
    NoBraceInPrefixes();
    SliceAround(DataWasSaved, SimpleBadJson, ToDB);
    IndexOfAfter(DataWasSaved, SimpleBadJson, ToDB);
    SimpleBadScan();
  }

  const BadTail := "[" + ("{" + (Date + ("{" + (Sports + ("}" + ("}" + ("}" + ToDB)))))))

  /** From the `[` of `info` on, with the outer `{` open: `[{..{..}}` leaves `[` on top for the last `}`. */
  lemma BadTailUnclosed()
    ensures ScanFrom(BadTail, 0, ['{']) == Unclosed('[')
  {
    PlainPieces();
    var u6 := "}" + ToDB;
    var u5 := "}" + u6;
    var u4 := "}" + u5;
    var u3 := Sports + u4;
    var u2 := "{" + u3;
    var u1 := Date + u2;
    var u0 := "{" + u1;
    ScanHeadOpen('[', u0, ['{']);
    assert ['{'] + ['['] == ['{', '['];
    ScanHeadOpen('{', u1, ['{', '[']);
    assert ['{', '['] + ['{'] == ['{', '[', '{'];
    ScanPlain(Date, u2, ['{', '[', '{']);
    ScanHeadOpen('{', u3, ['{', '[', '{']);
    assert ['{', '[', '{'] + ['{'] == ['{', '[', '{', '{'];
    ScanPlain(Sports, u4, ['{', '[', '{', '{']);
    ScanHeadClose('}', u5, ['{', '[', '{', '{']);
    assert ['{', '[', '{', '{'][..3] == ['{', '[', '{'];
    ScanHeadClose('}', u6, ['{', '[', '{']);
    assert ['{', '[', '{'][..2] == ['{', '['];
    ScanHeadMismatch(ToDB, ['{', '[']);
  }

  /** `complexBadJson` and what follows it. */
  lemma ComplexBadScan()
    ensures Scan(ComplexBadJson + ToDB) == Unclosed('[')
  {
    PlainPieces();
    var w := Name + (", " + (Email + (Info + BadTail)));
    assert ComplexBadJson + ToDB == "{" + w;
    var empty: seq<char> := [];
    ScanHeadOpen('{', w, empty);
    assert empty + ['{'] == ['{'];
    ScanPlain(Name, ", " + (Email + (Info + BadTail)), ['{']);
    ScanPlain(", ", Email + (Info + BadTail), ['{']);
    ScanPlain(Email, Info + BadTail, ['{']);
    ScanPlain(Info, BadTail, ['{']);
    BadTailUnclosed();
  }

  /** "Invalid JSON with only opening bracket": the `}` that meets `[` fails at once. */
  lemma ComplexBadJsonUnclosed(indent: string -> Indented)
    ensures var content := DataWasSaved + ComplexBadJson + ToDB;
      IndexOf(content, '{') == 15 &&
      Report(Scan(content[15..]), indent) == Error(OpenBracketNotClosed)
  {
    NoBraceInPrefixes();
    SliceAround(DataWasSaved, ComplexBadJson, ToDB);
    IndexOfAfter(DataWasSaved, ComplexBadJson, ToDB);
    ComplexBadScan();
  }
}
