/**
 * The embedded-JSON extractor of utils/utils.go.
 *
 * `extractJsonFromSubString` walks a string with a stack of open brackets and
 * an accumulator of consumed characters; `ExtractJsonFromString` hands it the
 * tail of a line starting at the first `{`.  The scan is modelled twice: as
 * the recursive function `ScanFrom`, which follows the loop step by step and
 * against which the method is proved, and through `Nest`, an independent
 * reference that says which openers are still waiting for their closer after
 * a prefix is read.  The lemmas tie the two together.
 */
module Utils {
  import opened Wrappers

  /** What `json.Indent` produced: the indented text or its error. */
  datatype Indented = Indented(text: string) | IndentError(err: string)

  /**
   * What a call returns: `(json, nil)`, `("", error)`, or the process exits
   * through `Check` with the given error.
   */
  datatype Outcome = Json(text: string) | Error(msg: string) | Exit(err: string)

  /** Where the bracket scan stopped. */
  datatype Stop = Found(raw: string) | Unclosed(opener: char) | NotCompleted

  const OpenBracketNotClosed := "Invalid JSON input, opening [ is not closed"
  const OpenBraceNotClosed := "Invalid JSON input, opening { is not closed"
  const NotCompletedMessage := "String is not JSON, not completed"

  /** `strings.ContainsAny(string(char), "{[")` */
  predicate IsOpener(c: char) { c == '{' || c == '[' }

  predicate IsCloser(c: char) { c == '}' || c == ']' }

  /** `o` is the opener that the closer `c` belongs to. */
  predicate Closes(o: char, c: char) { (o == '{' && c == '}') || (o == '[' && c == ']') }

  predicate AllOpeners(st: seq<char>) { forall k :: 0 <= k < |st| ==> IsOpener(st[k]) }

  /** `t` holds no bracket at all. */
  predicate Plain(t: string) { forall k :: 0 <= k < |t| ==> !IsOpener(t[k]) && !IsCloser(t[k]) }

  // ---------------------------------------------------------------------------
  // sliceToString and the one-character strings the loop accumulates

  /** `strings.Join(slice, "")` */
  function SliceToString(slice: seq<string>): (r: string)
    ensures (forall k :: 0 <= k < |slice| ==> |slice[k]| == 1) ==>
      |r| == |slice| && forall k :: 0 <= k < |slice| ==> r[k] == slice[k][0]
  {
    if slice == [] then "" else SliceToString(slice[..|slice| - 1]) + slice[|slice| - 1]
  }

  /** The characters of `t`, each as a one-character string, as the loop appends them. */
  function Chars(t: string): (r: seq<string>)
    ensures |r| == |t|
    ensures forall k :: 0 <= k < |t| ==> r[k] == [t[k]]
  {
    seq(|t|, k requires 0 <= k < |t| => [t[k]])
  }

  lemma {:induction false} SliceToStringAppend(a: seq<string>, b: seq<string>)
    ensures SliceToString(a + b) == SliceToString(a) + SliceToString(b)
    decreases |b|
  {
    if b == [] {
      assert a + b == a;
    } else {
      var b' := b[..|b| - 1];
      assert (a + b)[..|a + b| - 1] == a + b';
      assert SliceToString(a + b) == SliceToString(a + b') + b[|b| - 1];
      SliceToStringAppend(a, b');
    }
  }

  lemma {:induction false} SliceToStringChars(t: string)
    ensures SliceToString(Chars(t)) == t
    decreases |t|
  {
    if t != [] {
      var t' := t[..|t| - 1];
      assert Chars(t)[..|t| - 1] == Chars(t');
      SliceToStringChars(t');
      assert t' + [t[|t| - 1]] == t;
    }
  }

  // ---------------------------------------------------------------------------
  // prettyJsonString: json.Indent is a parameter that may fail

  /**
   * `prettyJsonString`: indents `content` with `indent` (json.Indent with
   * prefix "" and two-space indentation); an indentation error goes to
   * `Check`, which exits.
   */
  function PrettyJsonString(content: string, indent: string -> Indented): (r: Outcome)
    ensures !r.Error?
    ensures r.Json? <==> indent(content).Indented?
    ensures r.Json? ==> r.text == indent(content).text
    ensures r.Exit? ==> r.err == indent(content).err
  {
    match indent(content)
    case Indented(text) => Json(text)
    case IndentError(err) => Exit(err)
  }

  // ---------------------------------------------------------------------------
  // The scan, step by step

  /**
   * The loop of `extractJsonFromSubString` from position `i` with `stack`
   * open; the accumulated text at `i` is always `s[..i]`.
   */
  function ScanFrom(s: string, i: nat, stack: seq<char>): (r: Stop)
    requires i <= |s|
    ensures r.Found? ==> i <= |r.raw| <= |s| && r.raw == s[..|r.raw|]
    ensures r.Found? && |r.raw| < |s| ==> !IsOpener(s[|r.raw|])
    ensures r.Unclosed? ==> IsOpener(r.opener)
    decreases |s| - i
  {
    if i == |s| then
      if |stack| > 0 then NotCompleted else Found(s[..i])
    else if IsOpener(s[i]) then
      ScanFrom(s, i + 1, stack + [s[i]])
    else if |stack| == 0 then
      Found(s[..i])
    else if s[i] == '}' then
      if stack[|stack| - 1] == '[' then Unclosed('[') else ScanFrom(s, i + 1, stack[..|stack| - 1])
    else if s[i] == ']' then
      if stack[|stack| - 1] == '{' then Unclosed('{') else ScanFrom(s, i + 1, stack[..|stack| - 1])
    else
      ScanFrom(s, i + 1, stack)
  }

  /** The scan of `extractJsonFromSubString` starts with an empty stack. */
  function Scan(s: string): (r: Stop)
    ensures s == [] ==> r == Found([])
    ensures s != [] && !IsOpener(s[0]) ==> r == Found([])
  {
    ScanFrom(s, 0, [])
  }

  /** The value `extractJsonFromSubString` returns once the scan has stopped. */
  function Report(sc: Stop, indent: string -> Indented): (r: Outcome)
    ensures r.Error? <==> !sc.Found?
    ensures sc.Found? ==> r == PrettyJsonString(sc.raw, indent)
    ensures sc == Unclosed('[') ==> r == Error(OpenBracketNotClosed)
    ensures sc == Unclosed('{') ==> r == Error(OpenBraceNotClosed)
    ensures sc.NotCompleted? ==> r == Error(NotCompletedMessage)
  {
    match sc
    case Found(raw) => PrettyJsonString(raw, indent)
    case Unclosed(o) => Error(if o == '[' then OpenBracketNotClosed else OpenBraceNotClosed)
    case NotCompleted => Error(NotCompletedMessage)
  }

  // ---------------------------------------------------------------------------
  // The reference: nesting of a prefix

  /**
   * One character read with the openers `st` waiting: an opener is pushed, a
   * closer pops the opener it belongs to, anything else leaves `st` as it
   * is; a closer that meets an empty stack or the other kind of opener
   * breaks the nesting.
   */
  function Step(st: seq<char>, c: char): Option<seq<char>>
  {
    if IsOpener(c) then Some(st + [c])
    else if IsCloser(c) then
      if st != [] && Closes(st[|st| - 1], c) then Some(st[..|st| - 1]) else None
    else Some(st)
  }

  /** The openers still waiting after `t` is read with `base` already open, or None if `t` breaks the nesting. */
  function Nest(base: seq<char>, t: string): Option<seq<char>>
    decreases |t|
  {
    if t == [] then Some(base)
    else
      match Nest(base, t[..|t| - 1])
      case None => None
      case Some(st) => Step(st, t[|t| - 1])
  }

  /** Count of openers in `t`. */
  function Openers(t: string): nat
  {
    if t == [] then 0 else Openers(t[..|t| - 1]) + (if IsOpener(t[|t| - 1]) then 1 else 0)
  }

  /** Count of closers in `t`. */
  function Closers(t: string): nat
  {
    if t == [] then 0 else Closers(t[..|t| - 1]) + (if IsCloser(t[|t| - 1]) then 1 else 0)
  }

  /** The scan would stop before `s[j]`: nothing is open there and `s[j]` opens nothing. */
  ghost predicate StopPoint(s: string, j: nat)
  {
    j < |s| && Nest([], s[..j]) == Some([]) && !IsOpener(s[j])
  }

  ghost predicate NoStopBefore(s: string, k: nat)
  {
    forall j: nat :: j < k ==> !StopPoint(s, j)
  }

  /** `s[..k]` is the text the scan accepts: balanced, and `k` is the first place it may stop. */
  ghost predicate StopsAt(s: string, k: nat)
  {
    k <= |s| && Nest([], s[..k]) == Some([]) && (k == |s| || !IsOpener(s[k])) && NoStopBefore(s, k)
  }

  /** Before any stop, the closer `s[j]` meets the opener `o` of the other kind on top of the stack. */
  ghost predicate MismatchAt(s: string, j: nat, o: char)
  {
    j < |s| && NoStopBefore(s, j) && Nest([], s[..j]).Some? &&
    var st := Nest([], s[..j]).value;
    st != [] && st[|st| - 1] == o && IsCloser(s[j]) && !Closes(o, s[j])
  }

  /** `s` never stops, never breaks the nesting, and ends with openers still waiting. */
  ghost predicate RunsOut(s: string)
  {
    NoStopBefore(s, |s|) && Nest([], s).Some? && Nest([], s).value != []
  }

  // ---------------------------------------------------------------------------
  // Facts about the reference

  /** Reading one more character is one `Step`. */
  lemma NestSnoc(base: seq<char>, t: string, c: char)
    ensures Nest(base, t + [c]) == match Nest(base, t) case None => None case Some(st) => Step(st, c)
  {
    assert (t + [c])[..|t + [c]| - 1] == t;
  }

  lemma {:induction false} NestAppend(base: seq<char>, t: string, u: string)
    ensures Nest(base, t + u) == match Nest(base, t) case None => None case Some(m) => Nest(m, u)
    decreases |u|
  {
    if u == [] {
      assert t + u == t;
    } else {
      var u' := u[..|u| - 1];
      var c := u[|u| - 1];
      assert t + u == (t + u') + [c];
      assert u == u' + [c];
      NestSnoc(base, t + u', c);
      NestAppend(base, t, u');
      match Nest(base, t)
      case None =>
      case Some(m) => NestSnoc(m, u', c);
    }
  }

  /** Once the nesting breaks it stays broken, so every prefix of a well-nested text is well nested. */
  lemma NestPrefix(base: seq<char>, t: string, k: nat)
    requires k <= |t| && Nest(base, t).Some?
    ensures Nest(base, t[..k]).Some?
  {
    assert t == t[..k] + t[k..];
    NestAppend(base, t[..k], t[k..]);
  }

  /** Openers already waiting below are never touched. */
  lemma {:induction false} NestShift(pre: seq<char>, base: seq<char>, t: string)
    requires Nest(base, t).Some?
    ensures Nest(pre + base, t) == Some(pre + Nest(base, t).value)
    decreases |t|
  {
    if t != [] {
      var t' := t[..|t| - 1];
      var c := t[|t| - 1];
      NestShift(pre, base, t');
      var m := Nest(base, t').value;
      if IsOpener(c) {
        assert (pre + m) + [c] == pre + (m + [c]);
      } else if IsCloser(c) {
        assert (pre + m)[..|pre + m| - 1] == pre + m[..|m| - 1];
      }
    }
  }

  /** The stack only ever holds `{` and `[`. */
  lemma {:induction false} NestOpenersOnly(base: seq<char>, t: string)
    requires AllOpeners(base) && Nest(base, t).Some?
    ensures AllOpeners(Nest(base, t).value)
    decreases |t|
  {
    if t != [] {
      NestOpenersOnly(base, t[..|t| - 1]);
    }
  }

  /** Each opener pushes exactly one element and each closer pops exactly one. */
  lemma {:induction false} NestDepth(base: seq<char>, t: string)
    requires Nest(base, t).Some?
    ensures |Nest(base, t).value| == |base| + Openers(t) - Closers(t)
    decreases |t|
  {
    if t != [] {
      NestDepth(base, t[..|t| - 1]);
    }
  }

  /** Text without brackets leaves any stack as it is. */
  lemma {:induction false} NestPlain(base: seq<char>, t: string)
    requires Plain(t)
    ensures Nest(base, t) == Some(base)
    decreases |t|
  {
    if t != [] {
      NestPlain(base, t[..|t| - 1]);
    }
  }

  // ---------------------------------------------------------------------------
  // The scan against the reference

  /** The nesting after `s[..i + 1]` is one `Step` from the nesting after `s[..i]`. */
  lemma NestNext(s: string, i: nat)
    requires i < |s|
    ensures Nest([], s[..i + 1]) == match Nest([], s[..i]) case None => None case Some(st) => Step(st, s[i])
  {
    assert s[..i + 1] == s[..i] + [s[i]];
    NestSnoc([], s[..i], s[i]);
  }

  lemma NoStopExtend(s: string, i: nat)
    requires NoStopBefore(s, i) && !StopPoint(s, i)
    ensures NoStopBefore(s, i + 1)
  {
  }

  /** While no stop point has been passed, the scan's stack is exactly the nesting of the consumed prefix. */
  lemma {:induction false} ScanTracksNest(s: string, i: nat)
    requires i <= |s| && Nest([], s[..i]).Some? && NoStopBefore(s, i)
    ensures Scan(s) == ScanFrom(s, i, Nest([], s[..i]).value)
  {
    if i > 0 {
      NestNext(s, i - 1);
      assert !StopPoint(s, i - 1);
      ScanTracksNest(s, i - 1);
    }
  }

  lemma {:induction false} ScanFromMeaning(s: string, i: nat)
    requires i <= |s| && Nest([], s[..i]).Some? && NoStopBefore(s, i)
    ensures var r := ScanFrom(s, i, Nest([], s[..i]).value);
      (r.Found? ==> |r.raw| <= |s| && r.raw == s[..|r.raw|] && StopsAt(s, |r.raw|)) &&
      (r.Unclosed? ==> exists j: nat :: MismatchAt(s, j, r.opener)) &&
      (r.NotCompleted? ==> RunsOut(s))
    decreases |s| - i
  {
    var st := Nest([], s[..i]).value;
    if i == |s| {
      assert s[..i] == s;
    } else {
      var c := s[i];
      NestNext(s, i);
      if IsOpener(c) {
        NoStopExtend(s, i);
        ScanFromMeaning(s, i + 1);
      } else if st == [] {
        assert StopsAt(s, i);
      } else if IsCloser(c) {
        NestOpenersOnly([], s[..i]);
        assert IsOpener(st[|st| - 1]);
        if Closes(st[|st| - 1], c) {
          NoStopExtend(s, i);
          ScanFromMeaning(s, i + 1);
        } else {
          assert MismatchAt(s, i, st[|st| - 1]);
        }
      } else {
        NoStopExtend(s, i);
        ScanFromMeaning(s, i + 1);
      }
    }
  }

  /** The scan succeeds with `s[..k]` exactly when `k` is where `s` first stops balanced. */
  lemma ScanFound(s: string, k: nat)
    requires k <= |s|
    ensures Scan(s) == Found(s[..k]) <==> StopsAt(s, k)
  {
    assert s[..0] == [];
    ScanFromMeaning(s, 0);
    if StopsAt(s, k) {
      ScanTracksNest(s, k);
    }
  }

  /** The scan fails naming opener `o` exactly when a closer meets `o` before any stop. */
  lemma ScanUnclosed(s: string, o: char)
    ensures Scan(s) == Unclosed(o) <==> exists j: nat :: MismatchAt(s, j, o)
  {
    assert s[..0] == [];
    ScanFromMeaning(s, 0);
    if j: nat :| MismatchAt(s, j, o) {
      ScanTracksNest(s, j);
      NestOpenersOnly([], s[..j]);
    }
  }

  /** The scan reports incomplete input exactly when the input runs out with openers waiting. */
  lemma ScanNotCompleted(s: string)
    ensures Scan(s) == NotCompleted <==> RunsOut(s)
  {
    assert s[..0] == [];
    ScanFromMeaning(s, 0);
    if RunsOut(s) {
      assert s[..|s|] == s;
      ScanTracksNest(s, |s|);
    }
  }

  /** An opener met after the stack has emptied is pushed and the scan goes on. */
  lemma ScanContinuesAfterBalance(s: string, i: nat)
    requires i < |s| && Nest([], s[..i]) == Some([]) && NoStopBefore(s, i) && IsOpener(s[i])
    ensures Scan(s) == ScanFrom(s, i + 1, [s[i]])
  {
    ScanTracksNest(s, i);
    var empty: seq<char> := [];
    assert ScanFrom(s, i, empty) == ScanFrom(s, i + 1, empty + [s[i]]);
    assert empty + [s[i]] == [s[i]];
  }

  /** Reading `{` first puts it under whatever `t` leaves open. */
  lemma NestBraceThen(t: string)
    requires Nest([], t).Some?
    ensures Nest([], "{" + t) == Some(['{'] + Nest([], t).value)
  {
    NestSnoc([], [], '{');
    assert [] + ['{'] == "{";
    NestAppend([], "{", t);
    NestShift(['{'], [], t);
    assert ['{'] + [] == ['{'];
  }

  lemma RegionBalanced(b: string)
    requires Nest([], b) == Some([])
    ensures Nest([], "{" + b + "}") == Some([])
  {
    NestBraceThen(b);
    NestSnoc([], "{" + b, '}');
  }

  /** Inside `{` b `}` the outer `{` stays open, so the scan cannot stop there. */
  lemma RegionNoStop(b: string, suffix: string)
    requires Nest([], b) == Some([])
    ensures NoStopBefore("{" + b + "}" + suffix, |b| + 2)
  {
    forall j: nat | j < |b| + 2 ensures !StopPoint("{" + b + "}" + suffix, j)
    {
      RegionNoStopAt(b, suffix, j);
    }
  }

  lemma RegionNoStopAt(b: string, suffix: string, j: nat)
    requires Nest([], b) == Some([]) && j < |b| + 2
    ensures !StopPoint("{" + b + "}" + suffix, j)
  {
    var head := "{" + b;
    var s := head + "}" + suffix;
    if j == 0 {
      assert s[0] == '{';
    } else {
      var p := b[..j - 1];
      assert s[..j] == head[..j] by {
        assert s == head + ("}" + suffix);
      }
      assert head[..j] == "{" + p;
      NestPrefix([], b, j - 1);
      NestBraceThen(p);
    }
  }

  /**
   * A region `{` b `}` with `b` well nested, followed by nothing or by a
   * character that opens nothing, is accepted whole.
   */
  lemma ScanFirstRegion(b: string, suffix: string)
    requires Nest([], b) == Some([])
    requires suffix == [] || !IsOpener(suffix[0])
    ensures Scan("{" + b + "}" + suffix) == Found("{" + b + "}")
  {
    var region := "{" + b + "}";
    var s := region + suffix;
    var k := |b| + 2;
    assert s[..k] == region;
    RegionBalanced(b);
    RegionNoStop(b, suffix);
    if suffix != [] {
      assert s[k] == suffix[0];
    }
    assert StopsAt(s, k);
    ScanFound(s, k);
  }

  // ---------------------------------------------------------------------------
  // The operations

  /**
   * `extractJsonFromSubString`: the loop with its stack and accumulator; the
   * result is the report of the scan.
   */
  method ExtractJsonFromSubString(substring: string, indent: string -> Indented) returns (r: Outcome)
    ensures r == Report(Scan(substring), indent)
  {
    var stack: seq<char> := [];
    var jsonString: seq<string> := [];
    var i := 0;
    assert substring[..0] == [];
    while i < |substring|
      invariant 0 <= i <= |substring|
      invariant jsonString == Chars(substring[..i])
      invariant AllOpeners(stack)
      invariant Nest([], substring[..i]) == Some(stack) && NoStopBefore(substring, i)
      invariant ScanFrom(substring, i, stack) == Scan(substring)
    {
      var c := substring[i];
      NestNext(substring, i);
      if IsOpener(c) {
        stack := stack + [c];
        jsonString := jsonString + [[c]];
        NoStopExtend(substring, i);
        i := i + 1;
        continue;
      }
      if |stack| == 0 {
        SliceToStringChars(substring[..i]);
        r := PrettyJsonString(SliceToString(jsonString), indent);
        return;
      }
      if c == '}' {
        var check := stack[|stack| - 1];
        stack := stack[..|stack| - 1];
        if check == '[' {
          r := Error(OpenBracketNotClosed);
          return;
        }
      } else if c == ']' {
        var check := stack[|stack| - 1];
        stack := stack[..|stack| - 1];
        if check == '{' {
          r := Error(OpenBraceNotClosed);
          return;
        }
      }
      jsonString := jsonString + [[c]];
      NoStopExtend(substring, i);
      i := i + 1;
    }
    if |stack| > 0 {
      r := Error(NotCompletedMessage);
      return;
    }
    assert substring[..i] == substring;
    SliceToStringChars(substring);
    r := PrettyJsonString(SliceToString(jsonString), indent);
  }

  /** `strings.Index(s, string(c))`: the first index of `c`, or -1. */
  function IndexOf(s: string, c: char): (r: int)
    ensures -1 <= r < |s|
    ensures r == -1 <==> c !in s
    ensures 0 <= r ==> s[r] == c && c !in s[..r]
  {
    if s == [] then -1
    else if s[0] == c then 0
    else
      var k := IndexOf(s[1..], c);
      assert s == [s[0]] + s[1..];
      if k == -1 then -1
      else
        assert s[..k + 1] == [s[0]] + s[1..][..k];
        k + 1
  }

  /** `ExtractJsonFromString`: scan the line from its first `{`; a line without `{` makes the slice panic. */
  method ExtractJsonFromString(content: string, indent: string -> Indented) returns (r: Outcome)
    requires '{' in content
    ensures r == Report(Scan(content[IndexOf(content, '{')..]), indent)
  {
    var potentialPosition := IndexOf(content, '{');
    var potentialJson := content[potentialPosition..];
    r := ExtractJsonFromSubString(potentialJson, indent);
  }

  // ---------------------------------------------------------------------------
  // Offsets in the line

  /** A scan that starts on `{` accepts a balanced text that starts with `{` and ends with a closer. */
  lemma ScanFromBrace(sub: string)
    requires sub != [] && sub[0] == '{'
    ensures Scan(sub).Found? ==>
      var raw := Scan(sub).raw;
      |raw| <= |sub| && raw == sub[..|raw|] &&
      2 <= |raw| && raw[0] == '{' && IsCloser(raw[|raw| - 1]) && Nest([], raw) == Some([])
  {
    if Scan(sub).Found? {
      var raw := Scan(sub).raw;
      var k := |raw|;
      ScanFound(sub, k);
      assert StopsAt(sub, k);
      assert k != 0;
      var m := raw[..k - 1];
      assert raw == m + [raw[k - 1]];
      assert sub[..k - 1] == m;
      NestSnoc([], m, raw[k - 1]);
      assert !StopPoint(sub, k - 1);
    }
  }

  /**
   * The text handed to the pretty-printer is `content[p..p + |raw|]` with `p`
   * the first `{`: it starts with `{`, ends with a closer and is balanced.
   */
  lemma ExtractedSlice(content: string)
    requires '{' in content
    ensures var p := IndexOf(content, '{');
      0 <= p && '{' !in content[..p] &&
      (Scan(content[p..]).Found? ==>
        var raw := Scan(content[p..]).raw;
        p + |raw| <= |content| && content[p..p + |raw|] == raw &&
        2 <= |raw| && raw[0] == '{' && IsCloser(raw[|raw| - 1]) && Nest([], raw) == Some([]))
  {
    var p := IndexOf(content, '{');
    ScanFromBrace(content[p..]);
    if Scan(content[p..]).Found? {
      SliceOfTail(content, p, |Scan(content[p..]).raw|);
    }
  }

  lemma SliceOfTail(s: string, p: nat, k: nat)
    requires p + k <= |s|
    ensures s[p..][..k] == s[p..p + k]
  {
  }

  /** The first `{` of `prefix + region + suffix` is the head of `region` when `prefix` has none. */
  lemma IndexOfAfter(prefix: string, region: string, suffix: string)
    requires '{' !in prefix && region != [] && region[0] == '{'
    ensures IndexOf(prefix + region + suffix, '{') == |prefix|
  {
    assert (prefix + region + suffix)[|prefix|] == '{';
  }

  lemma SliceAround(prefix: string, region: string, suffix: string)
    ensures (prefix + region + suffix)[|prefix|..] == region + suffix
    ensures (prefix + region + suffix)[|prefix|..|prefix| + |region|] == region
  {
    assert prefix + region + suffix == prefix + (region + suffix);
  }

  /** A line `prefix {b} suffix` with no `{` in `prefix` yields the region from |prefix| to |prefix| + |b| + 2. */
  lemma ExtractRegion(prefix: string, b: string, suffix: string)
    requires '{' !in prefix
    requires Nest([], b) == Some([])
    requires suffix == [] || !IsOpener(suffix[0])
    ensures var region := "{" + b + "}"; var content := prefix + region + suffix;
      IndexOf(content, '{') == |prefix| &&
      Scan(content[|prefix|..]) == Found(region) &&
      content[|prefix|..|prefix| + |b| + 2] == region
  {
    var region := "{" + b + "}";
    assert |region| == |b| + 2;
    SliceAround(prefix, region, suffix);
    IndexOfAfter(prefix, region, suffix);
    ScanFirstRegion(b, suffix);
  }
}
