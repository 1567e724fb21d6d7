/**
  The digest can be read back as long as no reported string continues on a line that looks like the start of another,
  and its length in lines can be predicted as long as no reported string holds a newline.
 */
module Reading {
  import opened Digest
  import opened Grouping

  ghost predicate Clean(s: string) {
    '\n' !in s
  }

  ghost predicate CleanLines(ls: seq<string>) {
    forall i :: 0 <= i < |ls| ==> Clean(ls[i])
  }

  ghost predicate CleanReport(r: Report) {
    Clean(r.version) && Clean(r.task) && CleanLines(r.lines) && CleanLines(r.findings)
  }

  ghost predicate CleanReports(rs: seq<Report>) {
    forall i :: 0 <= i < |rs| ==> CleanReport(rs[i])
  }

  // ---------- from text to lines ----------

  lemma UnlinesEnds(ls: seq<string>)
    ensures Unlines(ls) == "" <==> ls == []
    ensures ls != [] ==> Unlines(ls)[|Unlines(ls)| - 1] == '\n'
  {
  }

  /** The last line of a text is what follows its last inner newline. */
  lemma LastLine(a: string, t: string, b: string, u: string)
    requires a + (t + "\n") == b + (u + "\n") && Clean(t) && Clean(u)
    requires a == "" || a[|a| - 1] == '\n'
    requires b == "" || b[|b| - 1] == '\n'
    ensures a == b && t == u
  {
    BreaksBefore(a, t, b, u);
    BreaksBefore(b, u, a, t);
    var whole := a + (t + "\n");
    assert a == whole[..|a|] == b;
    assert t == whole[|a|..|whole| - 1] == u;
  }

  lemma BreaksBefore(a: string, t: string, b: string, u: string)
    requires a + (t + "\n") == b + (u + "\n") && Clean(t)
    requires b == "" || b[|b| - 1] == '\n'
    ensures |b| <= |a|
  {
    var whole := a + (t + "\n");
    forall k | |a| <= k < |whole| - 1
      ensures whole[k] != '\n'
    {
      assert whole[k] == t[k - |a|];
    }
    assert b != "" ==> whole[|b| - 1] == b[|b| - 1];
  }

  lemma {:induction false} UnlinesInjective(a: seq<string>, b: seq<string>)
    requires CleanLines(a) && CleanLines(b) && Unlines(a) == Unlines(b)
    ensures a == b
  {
    UnlinesEnds(a);
    UnlinesEnds(b);
    if a != [] {
      var a', b' := a[..|a| - 1], b[..|b| - 1];
      UnlinesEnds(a');
      UnlinesEnds(b');
      LastLine(Unlines(a'), a[|a| - 1], Unlines(b'), b[|b| - 1]);
      UnlinesInjective(a', b');
      assert a == a' + [a[|a| - 1]] && b == b' + [b[|b| - 1]];
    }
  }

  // ---------- strings that span several lines ----------

  /** The lines a string spans; each newline in it starts another one. */
  function Spans(s: string): (ls: seq<string>)
    ensures |ls| > 0
  {
    if s == "" then [""] else
      var ls, c := Spans(s[..|s| - 1]), s[|s| - 1];
      if c == '\n' then ls + [""] else Longer(ls, c)
  }

  /** The same lines with one more character at the end. */
  function Longer(ls: seq<string>, c: char): (r: seq<string>)
    requires ls != []
    ensures |r| == |ls|
  {
    ls[..|ls| - 1] + [ls[|ls| - 1] + [c]]
  }

  function AllSpans(ls: seq<string>): seq<string> {
    if ls == [] then [] else AllSpans(ls[..|ls| - 1]) + Spans(ls[|ls| - 1])
  }

  lemma {:induction false} SpansAreClean(s: string)
    ensures CleanLines(Spans(s))
  {
    if s != "" {
      SpansAreClean(s[..|s| - 1]);
    }
  }

  lemma {:induction false} CleanSpansOnce(s: string)
    requires Clean(s)
    ensures Spans(s) == [s]
  {
    if s != "" {
      var init, c := s[..|s| - 1], s[|s| - 1];
      assert s == init + [c] && c in s;
      CleanSpansOnce(init);
    }
  }

  lemma {:induction false} UnlinesOfSpans(s: string)
    ensures Unlines(Spans(s)) == s + "\n"
  {
    if s == "" {
      assert [""][..0] == [];
    } else {
      var init, c := s[..|s| - 1], s[|s| - 1];
      var ls := Spans(init);
      UnlinesOfSpans(init);
      assert s == init + [c];
      if c == '\n' {
        UnlinesSnoc(ls, "");
      } else {
        assert ls == ls[..|ls| - 1] + [ls[|ls| - 1]];
        LongerLastLine(ls[..|ls| - 1], ls[|ls| - 1], c, init);
      }
    }
  }

  lemma LongerLastLine(ls: seq<string>, l: string, c: char, text: string)
    requires Unlines(ls + [l]) == text + "\n"
    ensures Unlines(ls + [l + [c]]) == text + [c] + "\n"
  {
    UnlinesSnoc(ls, l);
    UnlinesSnoc(ls, l + [c]);
    var upto := Unlines(ls) + l;
    assert upto + "\n" == text + "\n";
    assert upto == (upto + "\n")[..|upto|] == (text + "\n")[..|text|] == text;
    assert Unlines(ls) + (l + [c] + "\n") == upto + [c] + "\n";
  }

  lemma {:induction false} UnlinesOfAllSpans(ls: seq<string>)
    ensures Unlines(AllSpans(ls)) == Unlines(ls)
  {
    if ls != [] {
      var init, l := ls[..|ls| - 1], ls[|ls| - 1];
      UnlinesOfAllSpans(init);
      UnlinesOfSpans(l);
      UnlinesConcat(AllSpans(init), Spans(l));
    }
  }

  lemma {:induction false} AllSpansAreClean(ls: seq<string>)
    ensures CleanLines(AllSpans(ls))
  {
    if ls != [] {
      AllSpansAreClean(ls[..|ls| - 1]);
      SpansAreClean(ls[|ls| - 1]);
    }
  }

  lemma SpansInjective(s: string, t: string)
    requires Spans(s) == Spans(t)
    ensures s == t
  {
    UnlinesOfSpans(s);
    UnlinesOfSpans(t);
    assert s == (s + "\n")[..|s|] && t == (t + "\n")[..|t|];
  }

  /** Text before a string lengthens its first line. */
  lemma {:induction false} SpansBehind(p: string, s: string)
    requires Clean(p)
    ensures Spans(p + s) == [p + Spans(s)[0]] + Spans(s)[1..]
  {
    if s == "" {
      assert p + s == p;
      CleanSpansOnce(p);
    } else {
      var init, c := s[..|s| - 1], s[|s| - 1];
      SpansBehind(p, init);
      assert (p + s)[..|p + s| - 1] == p + init;
      LongerBehind(p, Spans(init), c);
    }
  }

  lemma LongerBehind(p: string, ls: seq<string>, c: char)
    requires ls != []
    ensures Longer([p + ls[0]] + ls[1..], c) == [p + Longer(ls, c)[0]] + Longer(ls, c)[1..]
    ensures ([p + ls[0]] + ls[1..]) + [""] == [p + (ls + [""])[0]] + (ls + [""])[1..]
  {
    if |ls| == 1 {
      assert p + ls[0] + [c] == p + (ls[0] + [c]);
    } else {
      var more := [p + ls[0]] + ls[1..];
      assert more[|ls| - 1] == ls[|ls| - 1] && more[..|ls| - 1] == [p + ls[0]] + ls[..|ls| - 1][1..];
    }
  }

  // ---------- lines that start something ----------

  /** What the first line of anything in a digest looks like. */
  predicate Opens(l: string) {
    l == "" || l == TITLE || l == FINDINGS_TITLE || VERSION_OPEN <= l || TASK_OPEN <= l || BULLET <= l || DASH <= l
  }

  /** No line of s but the first could be taken for the start of something else. */
  ghost predicate Readable(s: string) {
    forall l :: l in Spans(s)[1..] ==> !Opens(l)
  }

  ghost predicate ReadableLines(ls: seq<string>) {
    forall i :: 0 <= i < |ls| ==> Readable(ls[i])
  }

  lemma CleanIsReadable(s: string)
    requires Clean(s)
    ensures Readable(s)
  {
    CleanSpansOnce(s);
  }

  lemma {:induction false} SpansFrom(p: string, ls: seq<string>, b: string)
    requires Spans(p) == ls + [""]
    ensures Spans(p + b) == ls + Spans(b)
  {
    if b == "" {
      assert p + b == p;
    } else {
      var init, c := b[..|b| - 1], b[|b| - 1];
      SpansFrom(p, ls, init);
      SplitTail(p, b);
      LongerAfter(ls, Spans(init), c);
    }
  }

  /** A newline splits the lines on either side of it. */
  lemma SpansSplit(a: string, b: string)
    ensures Spans(a + "\n" + b) == Spans(a) + Spans(b)
  {
    var p := a + "\n";
    assert p[..|p| - 1] == a;
    SpansFrom(p, Spans(a), b);
  }

  lemma LongerAfter(a: seq<string>, b: seq<string>, c: char)
    requires b != []
    ensures Longer(a + b, c) == a + Longer(b, c)
    ensures (a + b) + [""] == a + (b + [""])
  {
    SplitTail(a, b);
    Associate(a, b[..|b| - 1], [b[|b| - 1] + [c]]);
  }

  /** Of two lines in one string, the second must not look like the start of something. */
  lemma BrokenInTwo(x: string, y: string)
    requires Clean(x) && Clean(y)
    ensures Readable(x + "\n" + y) <==> !Opens(y)
  {
    SpansSplit(x, y);
    CleanSpansOnce(x);
    CleanSpansOnce(y);
    assert ([x] + [y])[1..] == [y];
  }

  lemma ReadableBehind(p: string, s: string)
    requires Clean(p)
    ensures Readable(p + s) <==> Readable(s)
    ensures p <= Spans(p + s)[0]
  {
    SpansBehind(p, s);
    assert Spans(p + s)[1..] == Spans(s)[1..];
  }

  /** Texts that open and are readable can be told apart in what they print together. */
  ghost predicate Blocks(ls: seq<string>) {
    forall i :: 0 <= i < |ls| ==> Opens(Spans(ls[i])[0]) && Readable(ls[i])
  }

  lemma {:induction false} BlocksInjective(a: seq<string>, b: seq<string>)
    requires Blocks(a) && Blocks(b) && AllSpans(a) == AllSpans(b)
    ensures a == b
  {
    if a != [] && b != [] {
      var a', b', x, y := a[..|a| - 1], b[..|b| - 1], a[|a| - 1], b[|b| - 1];
      BlockNoLonger(AllSpans(a'), Spans(x), AllSpans(b'), Spans(y));
      BlockNoLonger(AllSpans(b'), Spans(y), AllSpans(a'), Spans(x));
      SameTail(AllSpans(a'), Spans(x), AllSpans(b'), Spans(y));
      SpansInjective(x, y);
      BlocksInjective(a', b');
      assert a == a' + [x] && b == b' + [y];
    }
  }

  /** The last block starts at the last line that opens. */
  lemma BlockNoLonger(a: seq<string>, x: seq<string>, b: seq<string>, y: seq<string>)
    requires a + x == b + y && y != [] && Opens(y[0])
    requires x != [] && forall l :: l in x[1..] ==> !Opens(l)
    ensures |x| <= |y|
  {
    var whole := a + x;
    assert whole[|b|] == (b + y)[|b|] == y[0];
    assert forall k :: |a| < k < |whole| ==> whole[k] == x[1..][k - |a| - 1];
  }

  lemma SameTail(a: seq<string>, x: seq<string>, b: seq<string>, y: seq<string>)
    requires a + x == b + y && |x| == |y|
    ensures a == b && x == y
  {
    assert a == (a + x)[..|a|] && b == (b + y)[..|b|];
    assert x == (a + x)[|a|..] && y == (b + y)[|b|..];
  }

  // ---------- from lines to tokens ----------

  /** Two characters tell the kinds of line apart. */
  lemma TextKinds(t: Token)
    ensures t.Blank? <==> |Text(t)| == 0
    ensures t.TaskLine? ==> Text(t)[0] == '_'
    ensures t.Title? ==> Text(t)[..2] == "*C"
    ensures t.VersionLine? ==> Text(t)[..2] == "*="
    ensures t.FindingsTitle? ==> Text(t)[0] == '*' && Text(t)[1] != 'C' && Text(t)[1] != '='
    ensures t.Item? ==> Text(t)[0] == ' ' && Text(t)[2] == '•'
    ensures t.FindingLine? ==> Text(t)[0] == ' ' && Text(t)[2] == '-'
  {
  }

  lemma TextPayload(t: Token)
    ensures t.VersionLine? ==> t.version == Text(t)[5..|Text(t)| - 5]
    ensures t.TaskLine? ==> t.task == Text(t)[1..|Text(t)| - 2]
    ensures t.Item? ==> t.line == Text(t)[4..]
    ensures t.FindingLine? ==> t.finding == Text(t)[4..]
  {
  }

  lemma TextInjective(t: Token, u: Token)
    requires Text(t) == Text(u)
    ensures t == u
  {
    TextKinds(t);
    TextKinds(u);
    TextPayload(t);
    TextPayload(u);
  }

  lemma TextsInjective(a: seq<Token>, b: seq<Token>)
    requires Texts(a) == Texts(b)
    ensures a == b
  {
    assert |a| == |Texts(a)| == |b|;
    forall i | 0 <= i < |a|
      ensures a[i] == b[i]
    {
      assert Texts(a)[i] == Texts(b)[i];
      TextInjective(a[i], b[i]);
    }
  }

  // ---------- from tokens to the sheet ----------

  function AddEntry(ps: seq<Part>, e: Entry): seq<Part> {
    if ps == [] then ps else
      var p := ps[|ps| - 1];
      ps[..|ps| - 1] + [p.(entries := p.entries + [e])]
  }

  function AddLine(ps: seq<Part>, l: string): seq<Part> {
    if ps == [] || ps[|ps| - 1].entries == [] then ps else
      var p := ps[|ps| - 1];
      var e := p.entries[|p.entries| - 1];
      ps[..|ps| - 1] + [p.(entries := p.entries[..|p.entries| - 1] + [e.(lines := e.lines + [l])])]
  }

  /** A reader's state after one more line. */
  function ReadToken(s: Sheet, t: Token): Sheet {
    match t
    case VersionLine(v) => s.(parts := s.parts + [Part(v, [])])
    case TaskLine(t) => s.(parts := AddEntry(s.parts, Entry(t, [])))
    case Item(l) => s.(parts := AddLine(s.parts, l))
    case FindingLine(f) => s.(findings := s.findings + [f])
    case _ => s
  }

  /** Reads lines top to bottom, keeping track of the current heading. */
  function ReadTokens(s: Sheet, ts: seq<Token>): Sheet {
    if ts == [] then s else ReadToken(ReadTokens(s, ts[..|ts| - 1]), ts[|ts| - 1])
  }

  lemma {:induction false} ReadConcat(s: Sheet, a: seq<Token>, b: seq<Token>)
    ensures ReadTokens(s, a + b) == ReadTokens(ReadTokens(s, a), b)
  {
    if b == [] {
      assert a + b == a;
    } else {
      ReadConcat(s, a, b[..|b| - 1]);
      assert (a + b)[..|a + b| - 1] == a + b[..|b| - 1];
    }
  }

  lemma ReadBoth(s: Sheet, a: seq<Token>, mid: Sheet, b: seq<Token>, last: Sheet)
    requires ReadTokens(s, a) == mid && ReadTokens(mid, b) == last
    ensures ReadTokens(s, a + b) == last
  {
    ReadConcat(s, a, b);
  }

  lemma ReadSnoc(s: Sheet, ts: seq<Token>, t: Token)
    ensures ReadTokens(s, ts + [t]) == ReadToken(ReadTokens(s, ts), t)
  {
    assert (ts + [t])[..|ts|] == ts;
  }

  lemma ReadOne(s: Sheet, t: Token)
    ensures ReadTokens(s, [t]) == ReadToken(s, t)
  {
    ReadSnoc(s, [], t);
    assert [] + [t] == [t];
  }

  lemma ReadItem(s: Sheet, ps: seq<Part>, v: string, es: seq<Entry>, e: Entry, l: string)
    requires s.parts == ps + [Part(v, es + [e])]
    ensures ReadToken(s, Item(l)) == s.(parts := ps + [Part(v, es + [e.(lines := e.lines + [l])])])
  {
    assert s.parts[..|s.parts| - 1] == ps;
    assert (es + [e])[..|es|] == es;
  }

  lemma {:induction false} ReadItems(s: Sheet, ps: seq<Part>, v: string, es: seq<Entry>, task: string,
                                     lines: seq<string>)
    requires s.parts == ps + [Part(v, es + [Entry(task, [])])]
    ensures ReadTokens(s, Items(lines)) == s.(parts := ps + [Part(v, es + [Entry(task, lines)])])
  {
    if lines != [] {
      var init, l := lines[..|lines| - 1], lines[|lines| - 1];
      ReadItems(s, ps, v, es, task, init);
      assert lines == init + [l];
      assert Items(lines) == Items(init) + [Item(l)];
      ReadSnoc(s, Items(init), Item(l));
      ReadItem(ReadTokens(s, Items(init)), ps, v, es, Entry(task, init), l);
    }
  }

  lemma ReadTask(s: Sheet, ps: seq<Part>, v: string, es: seq<Entry>, task: string)
    requires s.parts == ps + [Part(v, es)]
    ensures ReadTokens(s, [TaskLine(task)]) == s.(parts := ps + [Part(v, es + [Entry(task, [])])])
  {
    ReadOne(s, TaskLine(task));
    assert s.parts[..|s.parts| - 1] == ps;
  }

  lemma ReadEntry(s: Sheet, ps: seq<Part>, v: string, es: seq<Entry>, e: Entry)
    requires s.parts == ps + [Part(v, es)]
    ensures ReadTokens(s, [TaskLine(e.task)] + Items(e.lines)) == s.(parts := ps + [Part(v, es + [e])])
  {
    ReadConcat(s, [TaskLine(e.task)], Items(e.lines));
    ReadTask(s, ps, v, es, e.task);
    ReadItems(ReadTokens(s, [TaskLine(e.task)]), ps, v, es, e.task, e.lines);
  }

  /** Reading entry by entry. */
  function ReadEach(s: Sheet, es: seq<Entry>): Sheet {
    if es == [] then s else
      var e := es[|es| - 1];
      ReadTokens(ReadEach(s, es[..|es| - 1]), [TaskLine(e.task)] + Items(e.lines))
  }

  lemma {:induction false} ReadsEach(s: Sheet, es: seq<Entry>)
    ensures ReadTokens(s, EntryTokens(es)) == ReadEach(s, es)
  {
    if es != [] {
      var e := es[|es| - 1];
      ReadsEach(s, es[..|es| - 1]);
      ReadConcat(s, EntryTokens(es[..|es| - 1]), [TaskLine(e.task)] + Items(e.lines));
    }
  }

  lemma ReadLastEntry(s: Sheet, ps: seq<Part>, v: string, es: seq<Entry>)
    requires es != [] && s.parts == ps + [Part(v, es[..|es| - 1])]
    ensures ReadTokens(s, [TaskLine(es[|es| - 1].task)] + Items(es[|es| - 1].lines))
         == s.(parts := ps + [Part(v, es)])
  {
    var init, e := es[..|es| - 1], es[|es| - 1];
    assert es == init + [e];
    ReadEntry(s, ps, v, init, e);
  }

  lemma {:induction false} ReadEntries(s: Sheet, ps: seq<Part>, v: string, es: seq<Entry>)
    requires s.parts == ps + [Part(v, [])]
    ensures ReadEach(s, es) == s.(parts := ps + [Part(v, es)])
  {
    if es != [] {
      ReadEntries(s, ps, v, es[..|es| - 1]);
      ReadLastEntry(ReadEach(s, es[..|es| - 1]), ps, v, es);
    }
  }

  lemma ReadPart(s: Sheet, p: Part)
    ensures ReadTokens(s, BlockTokens(p)) == s.(parts := s.parts + [p])
  {
    var heading := [Blank, VersionLine(p.version)];
    ReadConcat(s, heading, EntryTokens(p.entries));
    ReadOne(s, Blank);
    ReadSnoc(s, [Blank], VersionLine(p.version));
    assert heading == [Blank] + [VersionLine(p.version)];
    ReadsEach(ReadTokens(s, heading), p.entries);
    ReadEntries(ReadTokens(s, heading), s.parts, p.version, p.entries);
  }

  lemma ReadMoreParts(s: Sheet, init: seq<Part>, p: Part)
    requires ReadTokens(s, PartTokens(init)) == Sheet(init, s.findings)
    ensures ReadTokens(s, PartTokens(init + [p])) == Sheet(init + [p], s.findings)
  {
    ReadPart(Sheet(init, s.findings), p);
    ReadBoth(s, PartTokens(init), Sheet(init, s.findings), BlockTokens(p), Sheet(init + [p], s.findings));
    assert (init + [p])[..|init|] == init;
  }

  lemma {:induction false} ReadParts(s: Sheet, ps: seq<Part>)
    requires s.parts == []
    ensures ReadTokens(s, PartTokens(ps)) == Sheet(ps, s.findings)
  {
    if ps != [] {
      var init, p := ps[..|ps| - 1], ps[|ps| - 1];
      ReadParts(s, init);
      ReadMoreParts(s, init, p);
      assert ps == init + [p];
    }
  }

  lemma {:induction false} ReadFindingLines(s: Sheet, fs: seq<string>)
    ensures ReadTokens(s, FindingLines(fs)) == s.(findings := s.findings + fs)
  {
    if fs == [] {
      assert s.findings + fs == s.findings;
    } else {
      ReadFindingLines(s, fs[..|fs| - 1]);
      assert FindingLines(fs)[..|fs| - 1] == FindingLines(fs[..|fs| - 1]);
      assert s.findings + fs == s.findings + fs[..|fs| - 1] + [fs[|fs| - 1]];
    }
  }

  lemma ReadFindings(s: Sheet, fs: seq<string>)
    requires s.findings == []
    ensures ReadTokens(s, FindingTokens(fs)) == s.(findings := fs)
  {
    if fs != [] {
      ReadConcat(s, [Blank, FindingsTitle], FindingLines(fs));
      ReadOne(s, Blank);
      ReadSnoc(s, [Blank], FindingsTitle);
      assert [Blank, FindingsTitle] == [Blank] + [FindingsTitle];
      ReadFindingLines(s, fs);
      assert [] + fs == fs;
    }
  }

  const EMPTY_SHEET := Sheet([], [])

  /** Reading inverts writing, for every sheet. */
  lemma ReadInvertsTokens(s: Sheet)
    ensures ReadTokens(EMPTY_SHEET, Tokens(s)) == s
  {
    ReadConcat(EMPTY_SHEET, [Title] + PartTokens(s.parts), FindingTokens(s.findings));
    ReadConcat(EMPTY_SHEET, [Title], PartTokens(s.parts));
    ReadOne(EMPTY_SHEET, Title);
    ReadParts(EMPTY_SHEET, s.parts);
    ReadFindings(Sheet(s.parts, []), s.findings);
  }

  // ---------- counting newlines ----------

  function Newlines(s: string): nat {
    if s == "" then 0 else Newlines(s[..|s| - 1]) + if s[|s| - 1] == '\n' then 1 else 0
  }

  /** Newlines inside the given strings. */
  function Inner(ls: seq<string>): nat {
    if ls == [] then 0 else Inner(ls[..|ls| - 1]) + Newlines(ls[|ls| - 1])
  }

  lemma {:induction false} NewlinesConcat(a: string, b: string)
    ensures Newlines(a + b) == Newlines(a) + Newlines(b)
  {
    if b == "" {
      assert a + b == a;
    } else {
      NewlinesConcat(a, b[..|b| - 1]);
      assert (a + b)[..|a + b| - 1] == a + b[..|b| - 1];
    }
  }

  lemma {:induction false} NoNewlines(s: string)
    ensures Newlines(s) == 0 <==> Clean(s)
  {
    if s != "" {
      NoNewlines(s[..|s| - 1]);
      assert s == s[..|s| - 1] + [s[|s| - 1]];
    }
  }

  lemma {:induction false} InnerConcat(a: seq<string>, b: seq<string>)
    ensures Inner(a + b) == Inner(a) + Inner(b)
  {
    if b == [] {
      assert a + b == a;
    } else {
      InnerConcat(a, b[..|b| - 1]);
      assert (a + b)[..|a + b| - 1] == a + b[..|b| - 1];
    }
  }

  lemma {:induction false} NoInner(ls: seq<string>)
    ensures Inner(ls) == 0 <==> CleanLines(ls)
  {
    if ls != [] {
      NoInner(ls[..|ls| - 1]);
      NoNewlines(ls[|ls| - 1]);
      assert ls == ls[..|ls| - 1] + [ls[|ls| - 1]];
    }
  }

  lemma {:induction false} NewlinesOfUnlines(ls: seq<string>)
    ensures Newlines(Unlines(ls)) == |ls| + Inner(ls)
  {
    if ls != [] {
      NewlinesOfUnlines(ls[..|ls| - 1]);
      var last := ls[|ls| - 1];
      NewlinesConcat(Unlines(ls[..|ls| - 1]), last + "\n");
      assert (last + "\n")[..|last|] == last;
    }
  }

  lemma NewlinesOfAffixes(s: string)
    ensures Newlines(TITLE) == 0 && Newlines(FINDINGS_TITLE) == 0
    ensures Newlines(VERSION_OPEN + s + VERSION_CLOSE) == Newlines(s)
    ensures Newlines(TASK_OPEN + s + TASK_CLOSE) == Newlines(s)
    ensures Newlines(BULLET + s) == Newlines(s)
    ensures Newlines(DASH + s) == Newlines(s)
  {
    NoNewlines(TITLE);
    NoNewlines(FINDINGS_TITLE);
    NoNewlines(VERSION_OPEN);
    NoNewlines(VERSION_CLOSE);
    NoNewlines(TASK_OPEN);
    NoNewlines(TASK_CLOSE);
    NoNewlines(BULLET);
    NoNewlines(DASH);
    NewlinesConcat(VERSION_OPEN, s);
    NewlinesConcat(VERSION_OPEN + s, VERSION_CLOSE);
    NewlinesConcat(TASK_OPEN, s);
    NewlinesConcat(TASK_OPEN + s, TASK_CLOSE);
    NewlinesConcat(BULLET, s);
    NewlinesConcat(DASH, s);
  }

  /** The newlines a token's own string brings into its line. */
  function Payload(t: Token): string {
    match t
    case VersionLine(v) => v
    case TaskLine(t) => t
    case Item(l) => l
    case FindingLine(f) => f
    case _ => ""
  }

  lemma NewlinesOfText(t: Token)
    ensures Newlines(Text(t)) == Newlines(Payload(t))
  {
    NewlinesOfAffixes(Payload(t));
  }

  function Payloads(ts: seq<Token>): (ls: seq<string>)
    ensures |ls| == |ts|
  {
    seq(|ts|, i requires 0 <= i < |ts| => Payload(ts[i]))
  }

  lemma {:induction false} InnerOfTexts(ts: seq<Token>)
    ensures Inner(Texts(ts)) == Inner(Payloads(ts))
  {
    if ts != [] {
      var init := ts[..|ts| - 1];
      InnerOfTexts(init);
      NewlinesOfText(ts[|ts| - 1]);
      assert Texts(ts)[..|init|] == Texts(init) && Payloads(ts)[..|init|] == Payloads(init);
    }
  }

  // ---------- what is printed of the reports ----------

  /** A report's part of the body: its task heading and its lines. */
  predicate InBody(r: Report, t: Token) {
    t == TaskLine(r.task) || (t.Item? && t.line in r.lines)
  }

  /** What a digest is made of, apart from its order. */
  ghost predicate Printed(rs: seq<Report>, t: Token) {
    match t
    case Title => true
    case Blank => rs != []
    case VersionLine(v) => exists r :: r in rs && r.version == v
    case FindingsTitle => exists r :: r in rs && r.findings != []
    case FindingLine(f) => exists r :: r in rs && f in Flagged(r)
    case _ => exists r :: r in rs && InBody(r, t)
  }

  lemma InItems(ls: seq<string>, t: Token)
    ensures t in Items(ls) <==> t.Item? && t.line in ls
    ensures t in FindingLines(ls) <==> t.FindingLine? && t.finding in ls
  {
    if t.Item? && t.line in ls {
      var i :| 0 <= i < |ls| && ls[i] == t.line;
      assert Items(ls)[i] == t;
    }
    if t.FindingLine? && t.finding in ls {
      var i :| 0 <= i < |ls| && ls[i] == t.finding;
      assert FindingLines(ls)[i] == t;
    }
  }

  lemma InOneMore(rs: seq<Report>, t: Token)
    requires rs != []
    ensures (exists r :: r in rs && InBody(r, t))
       <==> (exists r :: r in rs[..|rs| - 1] && InBody(r, t)) || InBody(rs[|rs| - 1], t)
  {
    assert rs == rs[..|rs| - 1] + [rs[|rs| - 1]];
    assert rs[|rs| - 1] in rs;
  }

  lemma InEntriesOrLast(rs: seq<Report>, t: Token)
    requires rs != []
    ensures t in EntryTokens(EntriesOf(rs)) <==>
      t in EntryTokens(EntriesOf(rs[..|rs| - 1])) || InBody(rs[|rs| - 1], t)
  {
    assert rs[..|rs|] == rs;
    EntriesSnoc(rs, |rs| - 1);
    InItems(rs[|rs| - 1].lines, t);
  }

  lemma {:induction false} InEntries(rs: seq<Report>, t: Token)
    ensures t in EntryTokens(EntriesOf(rs)) <==> exists r :: r in rs && InBody(r, t)
  {
    if rs != [] {
      InEntries(rs[..|rs| - 1], t);
      InOneMore(rs, t);
      InEntriesOrLast(rs, t);
    }
  }

  lemma InEither(a: seq<Report>, b: seq<Report>, t: Token)
    ensures (exists r :: r in a + b && InBody(r, t))
       <==> (exists r :: r in a && InBody(r, t)) || (exists r :: r in b && InBody(r, t))
  {
    assert forall r :: r in a + b <==> r in a || r in b;
  }

  lemma InBlock(rs: seq<Report>, v: string, t: Token)
    ensures t in BlockTokens(PartOf(rs, v)) <==>
      t == Blank || t == VersionLine(v) || exists r :: r in Section(rs, v) && InBody(r, t)
  {
    InEntries(Section(rs, v), t);
  }

  lemma InPartsOrBlock(rs: seq<Report>, order: seq<string>, t: Token)
    requires order != []
    ensures t in PartTokens(PartsOf(rs, order)) <==>
      || t in PartTokens(PartsOf(rs, order[..|order| - 1]))
      || t in BlockTokens(PartOf(rs, order[|order| - 1]))
  {
    assert order[..|order|] == order;
    PartsSnoc(rs, order, |order| - 1);
  }

  lemma {:induction false} InParts(rs: seq<Report>, order: seq<string>, t: Token)
    ensures t in PartTokens(PartsOf(rs, order)) <==>
      || (order != [] && t == Blank)
      || (t.VersionLine? && t.version in order)
      || exists r :: r in Sections(rs, order) && InBody(r, t)
  {
    if order != [] {
      var init, v := order[..|order| - 1], order[|order| - 1];
      InParts(rs, init, t);
      InBlock(rs, v, t);
      InPartsOrBlock(rs, order, t);
      InEither(Sections(rs, init), Section(rs, v), t);
      assert order == init + [v];
    }
  }

  lemma {:induction false} InFlags(rs: seq<Report>, f: string)
    ensures f in FlatMap(Flagged, rs) <==> exists r :: r in rs && f in Flagged(r)
  {
    if rs != [] {
      var init, last := rs[..|rs| - 1], rs[|rs| - 1];
      InFlags(init, f);
      assert rs == init + [last] && last in rs;
    }
  }

  lemma SomeFinding(rs: seq<Report>)
    ensures FlatMap(Flagged, rs) != [] <==> exists r :: r in rs && r.findings != []
  {
    if FlatMap(Flagged, rs) != [] {
      var f := FlatMap(Flagged, rs)[0];
      InFlags(rs, f);
    }
    if r :| r in rs && r.findings != [] {
      assert Flagged(r)[0] in Flagged(r);
      InFlags(rs, Flagged(r)[0]);
    }
  }

  lemma SameMembers(rs: seq<Report>)
    ensures forall r :: r in Grouped(rs) <==> r in rs
  {
    GroupedConserves(rs);
    assert forall r :: r in Grouped(rs) <==> r in multiset(Grouped(rs));
    assert forall r :: r in rs <==> r in multiset(rs);
  }

  lemma SameVersions(rs: seq<Report>, v: string)
    ensures v in Versions(rs) <==> exists r :: r in rs && r.version == v
    ensures Versions(rs) != [] <==> rs != []
  {
    VersionsByFirstAppearance(rs);
    if v in Versions(rs) {
      var p :| 0 <= p < |rs| && rs[p].version == v;
      assert rs[p] in rs;
    }
    if rs != [] {
      assert rs[0].version in Versions(rs);
    }
  }

  lemma InFindingTokens(fs: seq<string>, t: Token)
    ensures t in FindingTokens(fs) <==>
      fs != [] && (t == Blank || t == FindingsTitle || (t.FindingLine? && t.finding in fs))
  {
    InItems(fs, t);
  }

  lemma BodyPrints(rs: seq<Report>, t: Token)
    ensures t in PartTokens(SheetOf(rs).parts) <==>
      || (rs != [] && t == Blank)
      || (t.VersionLine? && exists r :: r in rs && r.version == t.version)
      || exists r :: r in rs && InBody(r, t)
  {
    InParts(rs, Versions(rs), t);
    SameMembers(rs);
    SameVersions(rs, if t.VersionLine? then t.version else "");
  }

  lemma FindingsPrint(rs: seq<Report>, t: Token)
    ensures t in FindingTokens(SheetOf(rs).findings) <==>
      || ((t == Blank || t == FindingsTitle) && exists r :: r in rs && r.findings != [])
      || (t.FindingLine? && exists r :: r in rs && t.finding in Flagged(r))
  {
    var g := Grouped(rs);
    InFindingTokens(FlatMap(Flagged, g), t);
    SomeFinding(g);
    SameMembers(rs);
    if t.FindingLine? {
      InFlags(g, t.finding);
    }
  }

  /** These tokens are headings, lines and findings of the reports, all of them and nothing else. */
  ghost predicate Prints(ts: seq<Token>, rs: seq<Report>) {
    forall t :: t in ts <==> Printed(rs, t)
  }

  lemma DigestPrints(rs: seq<Report>)
    ensures Prints(Tokens(SheetOf(rs)), rs)
  {
    forall t
      ensures t in Tokens(SheetOf(rs)) <==> Printed(rs, t)
    {
      TokenPrinted(rs, t);
    }
  }

  lemma TokenPrinted(rs: seq<Report>, t: Token)
    ensures t in Tokens(SheetOf(rs)) <==> Printed(rs, t)
  {
    var body, found := PartTokens(SheetOf(rs).parts), FindingTokens(SheetOf(rs).findings);
    BodyPrints(rs, t);
    FindingsPrint(rs, t);
    assert t in [Title] + body + found <==> t == Title || t in body || t in found;
  }

  // ---------- clean and readable reports ----------

  ghost predicate CleanTokens(ts: seq<Token>) {
    forall t :: t in ts ==> Clean(Payload(t))
  }

  lemma NoInnerPayloads(ts: seq<Token>)
    ensures Inner(Payloads(ts)) == 0 <==> CleanTokens(ts)
  {
    NoInner(Payloads(ts));
    if CleanTokens(ts) {
      assert forall i :: 0 <= i < |ts| ==> ts[i] in ts;
    } else {
      var t :| t in ts && !Clean(Payload(t));
      var i :| 0 <= i < |ts| && ts[i] == t;
      assert Payloads(ts)[i] == Payload(t);
    }
  }

  lemma CleanFlag(r: Report, f: string)
    ensures Clean(Flag(r, f)) <==> Clean(r.version) && Clean(r.task) && Clean(f)
  {
  }

  lemma CleanReportPrints(ts: seq<Token>, rs: seq<Report>, r: Report)
    requires Prints(ts, rs) && CleanTokens(ts) && r in rs
    ensures CleanReport(r)
  {
    assert Printed(rs, VersionLine(r.version));
    assert InBody(r, TaskLine(r.task)) && Printed(rs, TaskLine(r.task));
    forall i | 0 <= i < |r.lines|
      ensures Clean(r.lines[i])
    {
      assert InBody(r, Item(r.lines[i])) && Printed(rs, Item(r.lines[i]));
    }
    forall i | 0 <= i < |r.findings|
      ensures Clean(r.findings[i])
    {
      assert Flagged(r)[i] in Flagged(r) && Printed(rs, FindingLine(Flagged(r)[i]));
      CleanFlag(r, r.findings[i]);
    }
  }

  /** The lines that carry a string of this report. */
  predicate PrintedOf(r: Report, t: Token) {
    InBody(r, t) || t == VersionLine(r.version) || (t.FindingLine? && t.finding in Flagged(r))
  }

  lemma CleanPayload(r: Report, t: Token)
    requires CleanReport(r)
    requires PrintedOf(r, t)
    ensures Clean(Payload(t))
  {
    if t.FindingLine? {
      var i :| 0 <= i < |Flagged(r)| && Flagged(r)[i] == t.finding;
      CleanFlag(r, r.findings[i]);
    }
  }

  lemma CleanPrints(ts: seq<Token>, rs: seq<Report>)
    requires Prints(ts, rs)
    ensures CleanTokens(ts) <==> CleanReports(rs)
  {
    if CleanTokens(ts) {
      forall i | 0 <= i < |rs|
        ensures CleanReport(rs[i])
      {
        CleanReportPrints(ts, rs, rs[i]);
      }
    }
    if CleanReports(rs) {
      forall t | t in ts
        ensures Clean(Payload(t))
      {
        assert Printed(rs, t);
        if r :| r in rs && PrintedOf(r, t) {
          CleanPayload(r, t);
        }
      }
    }
  }

  /** The digest's own strings are newline-free exactly when the reports are. */
  lemma CleanDigest(rs: seq<Report>)
    ensures CleanTokens(Tokens(SheetOf(rs))) <==> CleanReports(rs)
  {
    DigestPrints(rs);
    CleanPrints(Tokens(SheetOf(rs)), rs);
  }

  /** No string of the report, as it is printed, has a later line that looks like the start of something else. */
  ghost predicate ReadableReport(r: Report) {
    && Readable(r.version + VERSION_CLOSE)
    && Readable(r.task + TASK_CLOSE)
    && ReadableLines(r.lines)
    && ReadableLines(Flagged(r))
  }

  ghost predicate ReadableReports(rs: seq<Report>) {
    forall i :: 0 <= i < |rs| ==> ReadableReport(rs[i])
  }

  /** A newline-free report is readable; by BrokenInTwo some others are. */
  lemma CleanReportsAreReadable(rs: seq<Report>)
    requires CleanReports(rs)
    ensures ReadableReports(rs)
  {
    forall i | 0 <= i < |rs|
      ensures ReadableReport(rs[i])
    {
      CleanReportIsReadable(rs[i]);
    }
  }

  lemma CleanReportIsReadable(r: Report)
    requires CleanReport(r)
    ensures ReadableReport(r)
  {
    CleanIsReadable(r.version + VERSION_CLOSE);
    CleanIsReadable(r.task + TASK_CLOSE);
    forall i | 0 <= i < |r.lines|
      ensures Readable(r.lines[i])
    {
      CleanIsReadable(r.lines[i]);
    }
    forall i | 0 <= i < |r.findings|
      ensures Readable(Flagged(r)[i])
    {
      CleanFlag(r, r.findings[i]);
      CleanIsReadable(Flagged(r)[i]);
    }
  }

  lemma AffixesAreClean()
    ensures Clean(TITLE) && Clean(FINDINGS_TITLE)
    ensures Clean(VERSION_OPEN) && Clean(TASK_OPEN) && Clean(BULLET) && Clean(DASH)
  {
  }

  lemma FixedTextsAreBlocks(t: Token)
    requires t.Title? || t.Blank? || t.FindingsTitle?
    ensures Opens(Spans(Text(t))[0]) && Readable(Text(t))
  {
    AffixesAreClean();
    CleanSpansOnce(Text(t));
  }

  /** The payload of a token with what is printed behind it. */
  function Rest(t: Token): string {
    match t
    case VersionLine(v) => v + VERSION_CLOSE
    case TaskLine(k) => k + TASK_CLOSE
    case _ => Payload(t)
  }

  lemma TextIsBlock(t: Token)
    requires t.VersionLine? || t.TaskLine? || t.Item? || t.FindingLine?
    ensures Opens(Spans(Text(t))[0])
    ensures Readable(Text(t)) <==> Readable(Rest(t))
  {
    AffixesAreClean();
    match t
    case VersionLine(v) =>
      ReadableBehind(VERSION_OPEN, v + VERSION_CLOSE);
      assert Text(t) == VERSION_OPEN + (v + VERSION_CLOSE);
    case TaskLine(k) =>
      ReadableBehind(TASK_OPEN, k + TASK_CLOSE);
      assert Text(t) == TASK_OPEN + (k + TASK_CLOSE);
    case Item(l) => ReadableBehind(BULLET, l);
    case FindingLine(f) => ReadableBehind(DASH, f);
  }

  lemma StartsToken(p: string, l: string, rest: string)
    requires Clean(p) && Clean(l) && p <= l
    ensures Spans(p + (l[|p|..] + "\n" + rest))[0] == l
  {
    SpansSplit(l[|p|..], rest);
    CleanSpansOnce(l[|p|..]);
    SpansBehind(p, l[|p|..] + "\n" + rest);
    assert p + l[|p|..] == l;
  }

  /** The condition excludes nothing needlessly: whatever looks like a start is the first line of something. */
  lemma OpeningLines(l: string)
    requires Clean(l)
    ensures Opens(l) <==> exists t :: Spans(Text(t))[0] == l
  {
    if Opens(l) {
      var t := Opened(l);
    }
    if t :| Spans(Text(t))[0] == l {
      if t.Title? || t.Blank? || t.FindingsTitle? {
        FixedTextsAreBlocks(t);
      } else {
        TextIsBlock(t);
      }
    }
  }

  lemma Opened(l: string) returns (t: Token)
    requires Clean(l) && Opens(l)
    ensures Spans(Text(t))[0] == l
  {
    AffixesAreClean();
    CleanSpansOnce(l);
    if l == "" {
      t := Blank;
    } else if l == TITLE {
      t := Title;
    } else if l == FINDINGS_TITLE {
      t := FindingsTitle;
    } else if VERSION_OPEN <= l {
      t := VersionLine(l[|VERSION_OPEN|..] + "\n");
      StartsToken(VERSION_OPEN, l, VERSION_CLOSE);
      assert Text(t) == VERSION_OPEN + (l[|VERSION_OPEN|..] + "\n" + VERSION_CLOSE);
    } else if TASK_OPEN <= l {
      t := TaskLine(l[|TASK_OPEN|..] + "\n");
      StartsToken(TASK_OPEN, l, TASK_CLOSE);
      assert Text(t) == TASK_OPEN + (l[|TASK_OPEN|..] + "\n" + TASK_CLOSE);
    } else if BULLET <= l {
      t := Item(l[|BULLET|..]);
      assert Text(t) == l;
    } else {
      t := FindingLine(l[|DASH|..]);
      assert Text(t) == l;
    }
  }

  lemma ReadableRest(r: Report, t: Token)
    requires ReadableReport(r)
    requires PrintedOf(r, t)
    ensures Readable(Rest(t))
  {
    if t.FindingLine? {
      var i :| 0 <= i < |Flagged(r)| && Flagged(r)[i] == t.finding;
    }
  }

  lemma ReadablePrints(ts: seq<Token>, rs: seq<Report>)
    requires Prints(ts, rs) && ReadableReports(rs)
    ensures Blocks(Texts(ts))
  {
    forall i | 0 <= i < |ts|
      ensures Opens(Spans(Text(ts[i]))[0]) && Readable(Text(ts[i]))
    {
      var t := ts[i];
      assert Printed(rs, t);
      if t.Title? || t.Blank? || t.FindingsTitle? {
        FixedTextsAreBlocks(t);
      } else {
        TextIsBlock(t);
        var r :| r in rs && PrintedOf(r, t);
        ReadableRest(r, t);
      }
    }
  }

  lemma DigestIsBlocks(rs: seq<Report>)
    requires ReadableReports(rs)
    ensures Blocks(Texts(Tokens(SheetOf(rs))))
  {
    DigestPrints(rs);
    ReadablePrints(Tokens(SheetOf(rs)), rs);
  }

  // ---------- the laws ----------

  /**
    Unique readability: for readable reports, two digests are the same text exactly when they have the same versions in
    the same order, the same tasks and lines under each, and the same findings in the same order.
   */
  lemma DigestIsUniquelyReadable(a: seq<Report>, b: seq<Report>)
    requires ReadableReports(a) && ReadableReports(b)
    ensures RenderText(a) == RenderText(b) <==> SheetOf(a) == SheetOf(b)
  {
    if RenderText(a) == RenderText(b) {
      var x, y := Tokens(SheetOf(a)), Tokens(SheetOf(b));
      DigestIsBlocks(a);
      DigestIsBlocks(b);
      PrintInjective(x, y);
      ReadInvertsTokens(SheetOf(a));
      ReadInvertsTokens(SheetOf(b));
    }
  }

  lemma PrintInjective(x: seq<Token>, y: seq<Token>)
    requires Blocks(Texts(x)) && Blocks(Texts(y)) && Print(x) == Print(y)
    ensures x == y
  {
    UnlinesOfAllSpans(Texts(x));
    UnlinesOfAllSpans(Texts(y));
    AllSpansAreClean(Texts(x));
    AllSpansAreClean(Texts(y));
    UnlinesInjective(AllSpans(Texts(x)), AllSpans(Texts(y)));
    BlocksInjective(Texts(x), Texts(y));
    TextsInjective(x, y);
  }

  /** Without that condition it fails: one line holding a newline and a bullet prints like two lines. */
  lemma NewlineForgesLine(v: string, t: string, x: string, y: string)
    ensures var a := [Report(v, t, [x + "\n" + BULLET + y], [])];
      var b := [Report(v, t, [x, y], [])];
      RenderText(a) == RenderText(b) && SheetOf(a) != SheetOf(b)
  {
    var a, b := Report(v, t, [x + "\n" + BULLET + y], []), Report(v, t, [x, y], []);
    OneReport(a);
    OneReport(b);
    TwoItems(x, y);
    DifferentSheets(v, t, a.lines, b.lines);
  }

  lemma DifferentSheets(v: string, t: string, k: seq<string>, l: seq<string>)
    requires |k| != |l|
    ensures Sheet([Part(v, [Entry(t, k)])], []) != Sheet([Part(v, [Entry(t, l)])], [])
  {
    var a, b := [Part(v, [Entry(t, k)])], [Part(v, [Entry(t, l)])];
    assert a[0].entries[0].lines == k && b[0].entries[0].lines == l;
  }

  lemma TwoItems(x: string, y: string)
    ensures Print(Items([x + "\n" + BULLET + y])) == Print(Items([x, y]))
  {
    var z := x + "\n" + BULLET + y;
    PrintOne(Item(z));
    assert Items([z]) == [Item(z)];
    PrintOne(Item(x));
    PrintSnoc([Item(x)], Item(y));
    assert Items([x, y]) == [Item(x)] + [Item(y)];
    Regroup(BULLET, x, y);
  }

  lemma Regroup(b: string, x: string, y: string)
    ensures b + (x + "\n" + b + y) + "\n" == (b + x + "\n") + (b + y + "\n")
  {
  }

  lemma OneGrouped(r: Report)
    ensures Versions([r]) == [r.version] && Section([r], r.version) == [r] && Grouped([r]) == [r]
  {
    var rs, order := [r], [r.version];
    assert rs[..|rs| - 1] == [] && order[..|order| - 1] == [];
    assert Versions(rs) == Versions([]) + [r.version] && Section(rs, r.version) == Section([], r.version) + [r];
    assert Sections(rs, order) == Sections(rs, []) + Section(rs, r.version);
  }

  lemma OneReport(r: Report)
    requires r.findings == []
    ensures SheetOf([r]) == Sheet([Part(r.version, [Entry(r.task, r.lines)])], [])
    ensures RenderText([r]) == Print([Title, Blank, VersionLine(r.version), TaskLine(r.task)]) + Print(Items(r.lines))
  {
    OneGrouped(r);
    FlatMapSnoc(Flagged, [r], 0);
    assert [r][..1] == [r];
    assert EntriesOf([r]) == [Entry(r.task, r.lines)];
    assert PartsOf([r], [r.version]) == [Part(r.version, [Entry(r.task, r.lines)])];
    OnePart(r.version, r.task, r.lines);
    PrintConcat([Title, Blank, VersionLine(r.version), TaskLine(r.task)], Items(r.lines));
  }

  lemma OnePart(v: string, t: string, lines: seq<string>)
    ensures Tokens(Sheet([Part(v, [Entry(t, lines)])], []))
        == [Title, Blank, VersionLine(v), TaskLine(t)] + Items(lines)
  {
    var e := Entry(t, lines);
    var p := Part(v, [e]);
    assert [e][..0] == [] && [p][..0] == [];
    assert EntryTokens([e]) == [TaskLine(t)] + Items(lines);
    assert PartTokens([p]) == [Blank, VersionLine(v)] + EntryTokens([e]);
  }

  /** The number of digest lines, had no reported string a newline. */
  function DigestLines(rs: seq<Report>): nat {
    var findings := |FlatMap(Flagged, rs)|;
    1 + 2 * |Versions(rs)| + |rs| + |FlatMap(LinesOf, rs)| + if findings > 0 then 2 + findings else 0
  }

  /** The summary count logged after a run is that number exactly when no reported string has a newline. */
  lemma DigestSize(rs: seq<Report>)
    ensures Newlines(RenderText(rs)) >= DigestLines(rs)
    ensures Newlines(RenderText(rs)) == DigestLines(rs) <==> CleanReports(rs)
  {
    var ts := Tokens(SheetOf(rs));
    NewlinesOfUnlines(Texts(ts));
    InnerOfTexts(ts);
    NoInnerPayloads(ts);
    CleanDigest(rs);
    TokenCount(rs);
  }

  lemma TokenCount(rs: seq<Report>)
    ensures |Tokens(SheetOf(rs))| == DigestLines(rs)
  {
    var g := Grouped(rs);
    PartTokenCount(rs, Versions(rs));
    GroupedConserves(rs);
    SameLength(g, rs);
    FlatMapPermutes(LinesOf, g, rs);
    SameLength(FlatMap(LinesOf, g), FlatMap(LinesOf, rs));
    FlatMapPermutes(Flagged, g, rs);
    SameLength(FlatMap(Flagged, g), FlatMap(Flagged, rs));
  }

  lemma SameLength<T>(a: seq<T>, b: seq<T>)
    requires multiset(a) == multiset(b)
    ensures |a| == |b|
  {
    assert |a| == |multiset(a)| == |multiset(b)| == |b|;
  }

  lemma {:induction false} EntryTokenCount(rs: seq<Report>)
    ensures |EntryTokens(EntriesOf(rs))| == |rs| + |FlatMap(LinesOf, rs)|
  {
    if rs != [] {
      EntryTokenCount(rs[..|rs| - 1]);
      assert rs[..|rs|] == rs;
      EntriesSnoc(rs, |rs| - 1);
    }
  }

  lemma {:induction false} PartTokenCount(rs: seq<Report>, order: seq<string>)
    ensures |PartTokens(PartsOf(rs, order))|
         == 2 * |order| + |Sections(rs, order)| + |FlatMap(LinesOf, Sections(rs, order))|
  {
    if order != [] {
      var init, v := order[..|order| - 1], order[|order| - 1];
      PartTokenCount(rs, init);
      EntryTokenCount(Section(rs, v));
      assert order[..|order|] == order;
      PartsSnoc(rs, order, |init|);
      FlatMapConcat(LinesOf, Sections(rs, init), Section(rs, v));
    }
  }

  // ---------- the text of a digest, spelled out ----------

  lemma SheetOfOne(v: string, t: string, l: string, f: string)
    ensures SheetOf([Report(v, t, [l], [f])]) == Sheet([Part(v, [Entry(t, [l])])], ["[" + v + "/" + t + "] " + f])
  {
    var r := Report(v, t, [l], [f]);
    OneGrouped(r);
    FlatMapSnoc(Flagged, [r], 0);
    assert [r][..1] == [r] && [r][..0] == [];
    assert Flagged(r) == ["[" + v + "/" + t + "] " + f];
    assert EntriesOf([r]) == [Entry(t, [l])];
    assert PartsOf([r], [v]) == [Part(v, [Entry(t, [l])])];
  }

  lemma TokensOfOne(v: string, t: string, l: string, f: string)
    ensures Tokens(Sheet([Part(v, [Entry(t, [l])])], [f]))
         == [Title, Blank, VersionLine(v), TaskLine(t)] + [Item(l)] + ([Blank, FindingsTitle] + [FindingLine(f)])
  {
    OnePart(v, t, [l]);
    assert Items([l]) == [Item(l)] && FindingLines([f]) == [FindingLine(f)];
    assert FindingTokens([]) == [];
    assert [Title] + PartTokens([Part(v, [Entry(t, [l])])]) + []
        == [Title] + PartTokens([Part(v, [Entry(t, [l])])]);
  }

  lemma PrintHead(v: string, t: string)
    ensures Print([Title, Blank, VersionLine(v), TaskLine(t)])
         == "*Chain Reconciler — Daily Report*\n" + ("\n" + ("*=== " + v + " ===*" + "\n")) + ("_" + t + "_:" + "\n")
  {
    PrintOne(Title);
    PrintHeading(v);
    PrintConcat([Title], [Blank, VersionLine(v)]);
    var three := [Title] + [Blank, VersionLine(v)];
    PrintSnoc(three, TaskLine(t));
    assert three + [TaskLine(t)] == [Title, Blank, VersionLine(v), TaskLine(t)];
  }

  lemma PrintTail(f: string)
    ensures Print([Blank, FindingsTitle] + [FindingLine(f)]) == "\n" + ("*⚠️ Findings*" + "\n") + ("  - " + f + "\n")
  {
    PrintFindingsHeading();
    PrintSnoc([Blank, FindingsTitle], FindingLine(f));
  }

  /** The digest of one report with one line and one finding, character by character. */
  lemma DigestText(v: string, t: string, l: string, f: string)
    ensures RenderText([Report(v, t, [l], [f])])
         == "*Chain Reconciler — Daily Report*\n"
            + ("\n" + ("*=== " + v + " ===*" + "\n"))
            + ("_" + t + "_:" + "\n") + ("  • " + l + "\n")
            + ("\n" + ("*⚠️ Findings*" + "\n") + ("  - " + ("[" + v + "/" + t + "] " + f) + "\n"))
  {
    var g := "[" + v + "/" + t + "] " + f;
    SheetOfOne(v, t, l, f);
    TokensOfOne(v, t, l, g);
    PrintHead(v, t);
    PrintTail(g);
    PrintSnoc([Title, Blank, VersionLine(v), TaskLine(t)], Item(l));
    PrintConcat([Title, Blank, VersionLine(v), TaskLine(t)] + [Item(l)], [Blank, FindingsTitle] + [FindingLine(g)]);
  }
}
