/** projects/git/GitIgnore: the entries of a .gitignore file as an ordered
    table from pattern to comment (a `LinkedHashMap`), read from and written
    to the lines of the file. The table is kept as the sequence of its keys
    in insertion order and the map itself; the file is its sequence of
    lines. */
module GitIgnoreTable {
  import opened Wrappers

  // ---------------------------------------------------------------------------
  // Text helpers

  /** The characters `String.trim` removes: every code point up to ' '. */
  predicate IsTrimmable(c: char) {
    c <= ' '
  }

  /** The characters of the regular-expression class `\s`. */
  predicate IsRegexSpace(c: char) {
    c == ' ' || c == '\t' || c == '\n' || c == 11 as char || c == 12 as char || c == '\r'
  }

  /** `s` without its leading characters that satisfy `IsTrimmable`. */
  function TrimStart(s: string): (r: string)
    ensures |r| <= |s|
    ensures r != [] ==> !IsTrimmable(r[0])
  {
    if s != [] && IsTrimmable(s[0]) then TrimStart(s[1..]) else s
  }

  /** `s` without its trailing characters that satisfy `IsTrimmable`. */
  function TrimEnd(s: string): (r: string)
    ensures |r| <= |s|
    ensures r != [] ==> r[0] == s[0] && !IsTrimmable(r[|r| - 1])
  {
    if s != [] && IsTrimmable(s[|s| - 1]) then TrimEnd(s[..|s| - 1]) else s
  }

  /** `String.trim`. */
  function Trim(s: string): (r: string)
    ensures |r| <= |s|
    ensures r != [] ==> !IsTrimmable(r[0]) && !IsTrimmable(r[|r| - 1])
  {
    TrimEnd(TrimStart(s))
  }

  /** What `trim` keeps: the part of `s` from index `n`, the number of its
      leading trimmable characters, with both ends not trimmable; everything
      cut off on either side is trimmable. */
  lemma TrimKeepsMiddle(s: string)
    ensures var n, r := |s| - |TrimStart(s)|, Trim(s);
      && n + |r| <= |s|
      && r == s[n..n + |r|]
      && (forall k :: 0 <= k < n ==> IsTrimmable(s[k]))
      && (forall k :: n + |r| <= k < |s| ==> IsTrimmable(s[k]))
      && (r != [] ==> !IsTrimmable(r[0]) && !IsTrimmable(r[|r| - 1]))
  {
    var t := TrimStart(s);
    var r := TrimEnd(t);
    var n := |s| - |t|;
    TrimStartCuts(s);
    TrimEndCuts(t);
    assert t == s[n..];
    assert r == t[..|r|] == s[n..n + |r|];
    forall k | n + |r| <= k < |s|
      ensures IsTrimmable(s[k])
    {
      assert s[k] == t[k - n];
    }
  }

  /** `TrimStart` cuts off a prefix of trimmable characters. */
  lemma {:induction false} TrimStartCuts(s: string)
    ensures TrimStart(s) == s[|s| - |TrimStart(s)|..]
    ensures forall k :: 0 <= k < |s| - |TrimStart(s)| ==> IsTrimmable(s[k])
  {
    if s != [] && IsTrimmable(s[0]) {
      TrimStartCuts(s[1..]);
      forall k | 1 <= k < |s| - |TrimStart(s)|
        ensures IsTrimmable(s[k])
      {
        assert s[k] == s[1..][k - 1];
      }
    }
  }

  /** `TrimEnd` cuts off a suffix of trimmable characters. */
  lemma {:induction false} TrimEndCuts(s: string)
    ensures TrimEnd(s) == s[..|TrimEnd(s)|]
    ensures forall k :: |TrimEnd(s)| <= k < |s| ==> IsTrimmable(s[k])
  {
    if s != [] && IsTrimmable(s[|s| - 1]) {
      var init := s[..|s| - 1];
      TrimEndCuts(init);
      assert init[..|TrimEnd(init)|] == s[..|TrimEnd(init)|];
      forall k | |TrimEnd(s)| <= k < |s| - 1
        ensures IsTrimmable(s[k])
      {
        assert s[k] == init[k];
      }
    }
  }

  /** `s` without its leading `\s` characters. */
  function DropLeadingSpace(s: string): (r: string)
    ensures |r| <= |s|
    ensures r != [] ==> !IsRegexSpace(r[0])
  {
    if s != [] && IsRegexSpace(s[0]) then DropLeadingSpace(s[1..]) else s
  }

  /** `s` without its trailing `\s` characters. */
  function DropTrailingSpace(s: string): (r: string)
    ensures |r| <= |s|
  {
    if s != [] && IsRegexSpace(s[|s| - 1]) then DropTrailingSpace(s[..|s| - 1]) else s
  }

  /** `startsWith("#")`. */
  predicate IsCommentLine(line: string) {
    line != [] && line[0] == '#'
  }

  /** The line terminators above ' ' that `$` recognises: U+0085,
      U+2028 and U+2029. A trimmed line read by `readLine` can end with
      one of them, never with '\n' or '\r'. */
  predicate IsHighLineEnd(c: char) {
    c == 0x85 as char || c == 0x2028 as char || c == 0x2029 as char
  }

  /** A '#' that `$` sees as final: the last character, or the one just
      before a final high line terminator. */
  predicate HashBeforeLineEnd(s: string) {
    |s| >= 2 && IsHighLineEnd(s[|s| - 1]) && s[|s| - 2] == '#'
  }

  /** The comment text of a trimmed line that starts with '#':
      `replaceAll("(^#\\s*)|(\\s*#$)", "")` removes the '#' and the spaces
      after it and, from what is left, a final '#' and the spaces before it;
      the result is trimmed. Without MULTILINE, `$` also matches just before
      a final line terminator, so a '#' right before a final U+0085, U+2028
      or U+2029 goes too, and the terminator stays. */
  function CommentText(line: string): string
    requires IsCommentLine(line)
  {
    var rest := DropLeadingSpace(line[1..]);
    var body :=
      if rest != [] && rest[|rest| - 1] == '#' then DropTrailingSpace(rest[..|rest| - 1])
      else if HashBeforeLineEnd(rest) then DropTrailingSpace(rest[..|rest| - 2]) + [rest[|rest| - 1]]
      else rest;
    Trim(body)
  }

  /** A comment written as "# " followed by the text reads back as the
      text, as long as the text is trimmed and does not end with '#'. */
  lemma CommentTextOfLine(c: string)
    requires c != [] && !IsTrimmable(c[0]) && !IsTrimmable(c[|c| - 1]) && c[|c| - 1] != '#'
    requires !HashBeforeLineEnd(c)
    ensures CommentText("# " + c) == c
  {
    var line := "# " + c;
    assert line[1..] == " " + c;
    SkipOneSpace(c);
    TrimmedFixed(c);
  }

  /** A comment whose '#' stands before a final U+2028 does not read back:
      `$` matches before the terminator, so the '#' is removed. */
  lemma CommentHashBeforeLineEndLost()
    ensures CommentText("# x#" + [0x2028 as char]) == "x" + [0x2028 as char]
  {
    var c := "x#" + [0x2028 as char];
    var line := "# " + c;
    assert line == "# x#" + [0x2028 as char];
    assert line[1..] == " " + c;
    SkipOneSpace(c);
    var rest := DropLeadingSpace(line[1..]);
    assert rest == c && rest[|rest| - 1] != '#' && HashBeforeLineEnd(rest);
    assert rest[..|rest| - 2] == "x";
    assert DropTrailingSpace("x") == "x";
    var body := DropTrailingSpace(rest[..|rest| - 2]) + [rest[|rest| - 1]];
    assert body == "x" + [0x2028 as char];
    TrimmedFixed(body);
  }

  lemma SkipOneSpace(c: string)
    requires c != [] && !IsTrimmable(c[0])
    ensures DropLeadingSpace(" " + c) == c
  {
    assert (" " + c)[1..] == c;
    assert !IsRegexSpace(c[0]);
  }

  lemma TrimmedFixed(c: string)
    requires c != [] && !IsTrimmable(c[0]) && !IsTrimmable(c[|c| - 1])
    ensures Trim(c) == c
  {
    assert TrimStart(c) == c;
  }

  // ---------------------------------------------------------------------------
  // The ordered table

  /** The table's invariant: the key sequence lists each key of the map once. */
  ghost predicate Table(patterns: seq<string>, comments: map<string, string>) {
    && (forall i, j :: 0 <= i < j < |patterns| ==> patterns[i] != patterns[j])
    && (forall p :: p in patterns <==> p in comments)
  }

  /** `LinkedHashMap.put`: a new key goes last, an existing key keeps its
      place and takes the new value. */
  function Put(patterns: seq<string>, comments: map<string, string>, key: string, value: string): (r: (seq<string>, map<string, string>))
    ensures key in comments ==> r.0 == patterns
    ensures key !in comments ==> r.0 == patterns + [key]
    ensures r.1 == comments[key := value]
  {
    (if key in comments then patterns else patterns + [key], comments[key := value])
  }

  lemma PutKeepsTable(patterns: seq<string>, comments: map<string, string>, key: string, value: string)
    requires Table(patterns, comments)
    ensures Table(Put(patterns, comments, key, value).0, Put(patterns, comments, key, value).1)
  {
  }

  /** The position of `key` in `patterns`. */
  function IndexOf(patterns: seq<string>, key: string): (i: nat)
    requires key in patterns
    ensures i < |patterns| && patterns[i] == key
    ensures forall j :: 0 <= j < i ==> patterns[j] != key
  {
    if patterns[0] == key then 0 else 1 + IndexOf(patterns[1..], key)
  }

  // ---------------------------------------------------------------------------
  // Reading lines

  /** What a line of the file is once trimmed. */
  datatype LineKind = CommentLine(text: string) | BlankLine | PatternLine(pattern: string)

  function Classify(line: string): (k: LineKind)
    ensures k.BlankLine? <==> Trim(line) == []
    ensures k.CommentLine? <==> IsCommentLine(Trim(line))
    ensures k.CommentLine? ==> k.text == CommentText(Trim(line))
    ensures k.PatternLine? ==> k.pattern == Trim(line) && k.pattern != [] && !IsCommentLine(k.pattern)
  {
    var l := Trim(line);
    if IsCommentLine(l) then CommentLine(CommentText(l))
    else if l == [] then BlankLine
    else PatternLine(l)
  }

  /** The comment in force after reading `lines`: the text of the last
      comment line, or "" before any. */
  function CurrentComment(lines: seq<string>): string {
    if lines == [] then ""
    else
      match Classify(lines[|lines| - 1])
      case CommentLine(c) => c
      case _ => CurrentComment(lines[..|lines| - 1])
  }

  /** The table after the loop of `loadGitIgnore` has read `lines` into it:
      comment lines change the current comment, blank lines are skipped,
      every other line (trimmed) is put with the current comment. The table
      is not cleared first. */
  function LoadLines(patterns: seq<string>, comments: map<string, string>, lines: seq<string>): (seq<string>, map<string, string>) {
    if lines == [] then (patterns, comments)
    else
      var (ps, m) := LoadLines(patterns, comments, lines[..|lines| - 1]);
      match Classify(lines[|lines| - 1])
      case PatternLine(l) => Put(ps, m, l, CurrentComment(lines[..|lines| - 1]))
      case _ => (ps, m)
  }

  /** Reading one more line. */
  lemma LoadStep(patterns: seq<string>, comments: map<string, string>, lines: seq<string>, i: nat)
    requires i < |lines|
    ensures CurrentComment(lines[..i + 1]) ==
              if Classify(lines[i]).CommentLine? then Classify(lines[i]).text else CurrentComment(lines[..i])
    ensures LoadLines(patterns, comments, lines[..i + 1]) ==
              if Classify(lines[i]).PatternLine? then
                Put(LoadLines(patterns, comments, lines[..i]).0, LoadLines(patterns, comments, lines[..i]).1,
                    Classify(lines[i]).pattern, CurrentComment(lines[..i]))
              else LoadLines(patterns, comments, lines[..i])
  {
    assert lines[..i + 1][..i] == lines[..i];
  }

  /** Reading keeps the table's invariant and its earlier entries: their
      order is unchanged and new patterns come after them. */
  lemma {:induction false} LoadLinesKeeps(patterns: seq<string>, comments: map<string, string>, lines: seq<string>)
    requires Table(patterns, comments)
    ensures Table(LoadLines(patterns, comments, lines).0, LoadLines(patterns, comments, lines).1)
    ensures |patterns| <= |LoadLines(patterns, comments, lines).0|
    ensures LoadLines(patterns, comments, lines).0[..|patterns|] == patterns
    ensures comments.Keys <= LoadLines(patterns, comments, lines).1.Keys
  {
    if lines != [] {
      var init := lines[..|lines| - 1];
      LoadLinesKeeps(patterns, comments, init);
      var (ps, m) := LoadLines(patterns, comments, init);
      match Classify(lines[|lines| - 1])
      case PatternLine(line) =>
        PutKeepsTable(ps, m, line, CurrentComment(init));
        assert (ps + [line])[..|patterns|] == ps[..|patterns|];
      case _ =>
    }
  }

  /** Every pattern line read is in the table afterwards. */
  lemma {:induction false} LoadLinesContains(patterns: seq<string>, comments: map<string, string>, lines: seq<string>, k: nat)
    requires k < |lines| && Classify(lines[k]).PatternLine?
    ensures Classify(lines[k]).pattern in LoadLines(patterns, comments, lines).1
  {
    var init := lines[..|lines| - 1];
    if k < |lines| - 1 {
      assert init[k] == lines[k];
      LoadLinesContains(patterns, comments, init, k);
    }
  }

  // ---------------------------------------------------------------------------
  // Writing lines

  /** The last comment written after the entries of `patterns`: a comment is
      written when it is not empty and differs from the last one written. */
  function LastWritten(patterns: seq<string>, comments: map<string, string>): string
    requires forall p :: p in patterns ==> p in comments
  {
    if patterns == [] then ""
    else
      var last := LastWritten(patterns[..|patterns| - 1], comments);
      var c := comments[patterns[|patterns| - 1]];
      if c != "" && c != last then c else last
  }

  /** The lines `saveGitIgnore` writes for the entries of `patterns`, in
      order: for each pattern an empty line and its comment when the comment
      is written, then the pattern itself. */
  function SaveLines(patterns: seq<string>, comments: map<string, string>): seq<string>
    requires forall p :: p in patterns ==> p in comments
  {
    if patterns == [] then []
    else
      var init := patterns[..|patterns| - 1];
      var p := patterns[|patterns| - 1];
      var c := comments[p];
      SaveLines(init, comments) + (if c != "" && c != LastWritten(init, comments) then ["", c, p] else [p])
  }

  /** What `saveGitIgnore` writes, line by line. */
  datatype Written = Blank | Comment(text: string) | Pattern(text: string)

  function SaveEntries(patterns: seq<string>, comments: map<string, string>): seq<Written>
    requires forall p :: p in patterns ==> p in comments
  {
    if patterns == [] then []
    else
      var init := patterns[..|patterns| - 1];
      var p := patterns[|patterns| - 1];
      var c := comments[p];
      SaveEntries(init, comments) + (if c != "" && c != LastWritten(init, comments) then [Blank, Comment(c), Pattern(p)] else [Pattern(p)])
  }

  function LineOf(w: Written): string {
    match w
    case Blank => ""
    case Comment(c) => c
    case Pattern(p) => p
  }

  function PatternsOf(ws: seq<Written>): seq<string> {
    if ws == [] then []
    else PatternsOf(ws[..|ws| - 1]) + (if ws[|ws| - 1].Pattern? then [ws[|ws| - 1].text] else [])
  }

  lemma {:induction false} PatternsOfAppend(a: seq<Written>, b: seq<Written>)
    ensures PatternsOf(a + b) == PatternsOf(a) + PatternsOf(b)
    decreases |b|
  {
    if b == [] {
      assert a + b == a;
    } else {
      PatternsOfAppend(a, b[..|b| - 1]);
      assert (a + b)[..|a + b| - 1] == a + b[..|b| - 1];
    }
  }

  /** Saving writes every pattern exactly once and in table order. */
  lemma {:induction false} SaveWritesEachPatternOnce(patterns: seq<string>, comments: map<string, string>)
    requires forall p :: p in patterns ==> p in comments
    ensures PatternsOf(SaveEntries(patterns, comments)) == patterns
  {
    if patterns != [] {
      var init := patterns[..|patterns| - 1];
      assert forall p :: p in init ==> p in patterns;
      SaveWritesEachPatternOnce(init, comments);
      var p := patterns[|patterns| - 1];
      var c := comments[p];
      var tail := if c != "" && c != LastWritten(init, comments) then [Blank, Comment(c), Pattern(p)] else [Pattern(p)];
      assert SaveEntries(patterns, comments) == SaveEntries(init, comments) + tail;
      PatternsOfAppend(SaveEntries(init, comments), tail);
      PatternsOfGroup(c, p);
      assert PatternsOf(tail) == [p];
      InitLast(patterns);
    }
  }

  lemma InitLast(xs: seq<string>)
    requires xs != []
    ensures xs[..|xs| - 1] + [xs[|xs| - 1]] == xs
  {
  }

  lemma PatternsOfGroup(c: string, p: string)
    ensures PatternsOf([Blank, Comment(c), Pattern(p)]) == [p]
    ensures PatternsOf([Pattern(p)]) == [p]
  {
    var g := [Blank, Comment(c), Pattern(p)];
    assert g[..2] == [Blank, Comment(c)];
    assert g[..2][..1] == [Blank];
    assert [Blank][..0] == [];
    assert PatternsOf([Blank]) == [];
    assert PatternsOf(g[..2]) == [];
    assert [Pattern(p)][..0] == [];
  }

  /** The saved lines are the texts of the saved entries, one for one. */
  lemma {:induction false} SaveLinesOfEntries(patterns: seq<string>, comments: map<string, string>)
    requires forall p :: p in patterns ==> p in comments
    ensures |SaveLines(patterns, comments)| == |SaveEntries(patterns, comments)|
    ensures forall k :: 0 <= k < |SaveLines(patterns, comments)| ==>
              SaveLines(patterns, comments)[k] == LineOf(SaveEntries(patterns, comments)[k])
  {
    if patterns != [] {
      var init := patterns[..|patterns| - 1];
      assert forall p :: p in init ==> p in patterns;
      SaveLinesOfEntries(init, comments);
    }
  }

  /** A comment is written only when it is not empty, and always after an
      empty line. */
  lemma {:induction false} SaveCommentsFollowBlank(patterns: seq<string>, comments: map<string, string>)
    requires forall p :: p in patterns ==> p in comments
    ensures forall k :: 0 <= k < |SaveEntries(patterns, comments)| && SaveEntries(patterns, comments)[k].Comment? ==>
              SaveEntries(patterns, comments)[k].text != "" && k >= 1 && SaveEntries(patterns, comments)[k - 1] == Blank
  {
    if patterns != [] {
      var init := patterns[..|patterns| - 1];
      assert forall p :: p in init ==> p in patterns;
      SaveCommentsFollowBlank(init, comments);
    }
  }

  /** Saving does not write the '#' of a comment, so reading the saved lines
      back takes the comment for a pattern: a table with the single pattern
      `p` commented `c` is saved as an empty line, `c` and `p`, and read back
      as the patterns `c` and `p`, neither of them commented. */
  lemma LoadAfterSaveNotIdentity(p: string, c: string)
    requires PlainText(p) && PlainText(c) && p != c
    ensures SaveLines([p], map[p := c]) == ["", c, p]
    ensures LoadLines([], map[], SaveLines([p], map[p := c])) == ([c, p], map[c := "", p := ""])
  {
    SaveSingleComment(p, c);
    var none: seq<string>, empty: map<string, string> := [], map[];
    LoadSavedComment(none, empty, p, c);
    assert none + [c, p] == [c, p];
    assert empty[c := ""][p := ""] == map[c := "", p := ""];
  }

  /** No line terminator: `readLine` gives the text back as one line. */
  predicate OneLine(l: string) {
    forall i :: 0 <= i < |l| ==> l[i] != '\n' && l[i] != '\r'
  }

  /** One line of text that `trim` leaves as it is and that does not start
      with '#'. */
  predicate PlainText(l: string) {
    l != [] && !IsTrimmable(l[0]) && !IsTrimmable(l[|l| - 1]) && l[0] != '#' && OneLine(l)
  }

  lemma SaveSingleComment(p: string, c: string)
    requires c != ""
    ensures SaveLines([p], map[p := c]) == ["", c, p]
  {
    assert [p][..0] == [];
  }

  lemma LoadSavedComment(patterns: seq<string>, comments: map<string, string>, p: string, c: string)
    requires PlainText(p) && PlainText(c) && p != c && p !in comments && c !in comments
    ensures LoadLines(patterns, comments, ["", c, p]) == (patterns + [c, p], comments[c := ""][p := ""])
  {
    LoadBlankThenPlain(patterns, comments, c);
    var l2: seq<string> := ["", c];
    LoadPlainLine(patterns, comments, l2, p);
    assert l2 + [p] == ["", c, p];
    assert patterns + [c] + [p] == patterns + [c, p];
  }

  lemma LoadBlankThenPlain(patterns: seq<string>, comments: map<string, string>, c: string)
    requires PlainText(c) && c !in comments
    ensures LoadLines(patterns, comments, ["", c]) == (patterns + [c], comments[c := ""])
    ensures CurrentComment(["", c]) == ""
  {
    var l1: seq<string> := [""];
    LoadBlankLine(patterns, comments, []);
    assert [] + [""] == l1;
    LoadPlainLine(patterns, comments, l1, c);
    assert l1 + [c] == ["", c];
  }

  /** Reading a blank line changes nothing. */
  lemma LoadBlankLine(patterns: seq<string>, comments: map<string, string>, init: seq<string>)
    ensures LoadLines(patterns, comments, init + [""]) == LoadLines(patterns, comments, init)
    ensures CurrentComment(init + [""]) == CurrentComment(init)
  {
    assert (init + [""])[..|init|] == init;
    assert Classify("") == BlankLine;
  }

  /** Reading a plain line puts it with the current comment. */
  lemma LoadPlainLine(patterns: seq<string>, comments: map<string, string>, init: seq<string>, l: string)
    requires PlainText(l)
    ensures LoadLines(patterns, comments, init + [l]) ==
              Put(LoadLines(patterns, comments, init).0, LoadLines(patterns, comments, init).1, l, CurrentComment(init))
    ensures CurrentComment(init + [l]) == CurrentComment(init)
  {
    assert (init + [l])[..|init|] == init;
    PlainLine(l);
    assert Classify(l) == PatternLine(l);
  }

  /** A line that starts with neither a space nor '#' and ends without a
      space is read as it is, as a pattern. */
  lemma PlainLine(l: string)
    requires PlainText(l)
    ensures Trim(l) == l && !IsCommentLine(l)
  {
    TrimmedFixed(l);
  }

  // ---------------------------------------------------------------------------
  // Writing comments as comments

  /** A comment `CommentText` reads back from "# " followed by it. */
  predicate CommentWritable(c: string) {
    c != [] && !IsTrimmable(c[0]) && !IsTrimmable(c[|c| - 1]) && c[|c| - 1] != '#' && !HashBeforeLineEnd(c) && OneLine(c)
  }

  /** The lines `saveGitIgnore` evidently means to write: as `SaveLines`,
      but each written comment as a comment line, "# " followed by the
      text. */
  function SaveLinesCommented(patterns: seq<string>, comments: map<string, string>): seq<string>
    requires forall p :: p in patterns ==> p in comments
  {
    if patterns == [] then []
    else
      var init := patterns[..|patterns| - 1];
      var p := patterns[|patterns| - 1];
      var c := comments[p];
      SaveLinesCommented(init, comments) + (if c != "" && c != LastWritten(init, comments) then ["", "# " + c, p] else [p])
  }

  /** Reading a comment line changes the current comment only. */
  lemma LoadCommentLine(patterns: seq<string>, comments: map<string, string>, init: seq<string>, line: string)
    requires Classify(line).CommentLine?
    ensures LoadLines(patterns, comments, init + [line]) == LoadLines(patterns, comments, init)
    ensures CurrentComment(init + [line]) == Classify(line).text
  {
    assert (init + [line])[..|init|] == init;
  }

  lemma CommentLineKind(c: string)
    requires CommentWritable(c)
    ensures Classify("# " + c) == CommentLine(c)
  {
    var l := "# " + c;
    assert l[0] == '#' && l[|l| - 1] == c[|c| - 1];
    TrimmedFixed(l);
    CommentTextOfLine(c);
  }

  /** The entries of a table whose patterns are among `ps`. */
  function Restrict(comments: map<string, string>, ps: seq<string>): map<string, string>
    requires forall p :: p in ps ==> p in comments
  {
    map p | p in ps :: comments[p]
  }

  /** Reading back the commented lines of the first entries of a table. */
  lemma {:induction false} LoadOfSavedPrefix(patterns: seq<string>, comments: map<string, string>)
    requires forall i, j :: 0 <= i < j < |patterns| ==> patterns[i] != patterns[j]
    requires forall p :: p in patterns ==> p in comments && PlainText(p)
    requires forall p :: p in patterns ==> CommentWritable(comments[p])
    ensures LoadLines([], map[], SaveLinesCommented(patterns, comments)) == (patterns, Restrict(comments, patterns))
    ensures CurrentComment(SaveLinesCommented(patterns, comments)) == LastWritten(patterns, comments)
  {
    if patterns == [] {
      var empty: map<string, string> := map[];
      assert Restrict(comments, patterns) == empty;
    } else {
      var init := patterns[..|patterns| - 1];
      var p := patterns[|patterns| - 1];
      assert forall q :: q in init ==> q in patterns;
      LoadOfSavedPrefix(init, comments);
      assert init + [p] == patterns;
      RestrictAppend(comments, init, p);
      LoadOfSavedEntry(SaveLinesCommented(init, comments), init, comments, p);
    }
  }

  /** Reading back the lines written for one more entry. */
  lemma LoadOfSavedEntry(before: seq<string>, init: seq<string>, comments: map<string, string>, p: string)
    requires forall q :: q in init ==> q in comments
    requires p in comments && PlainText(p) && CommentWritable(comments[p]) && p !in init
    requires LoadLines([], map[], before) == (init, Restrict(comments, init))
    requires CurrentComment(before) == LastWritten(init, comments)
    ensures var c, last := comments[p], LastWritten(init, comments);
      var after := before + (if c != last then ["", "# " + c, p] else [p]);
      && LoadLines([], map[], after) == (init + [p], Restrict(comments, init)[p := c])
      && CurrentComment(after) == (if c != last then c else last)
  {
    var none: seq<string>, empty: map<string, string> := [], map[];
    var c, last := comments[p], LastWritten(init, comments);
    if c != last {
      LoadBlankLine(none, empty, before);
      CommentLineKind(c);
      LoadCommentLine(none, empty, before + [""], "# " + c);
      LoadPlainLine(none, empty, before + [""] + ["# " + c], p);
      GroupOfThree(before, "", "# " + c, p);
    } else {
      LoadPlainLine(none, empty, before, p);
    }
  }

  lemma GroupOfThree(s: seq<string>, a: string, b: string, c: string)
    ensures s + [a] + [b] + [c] == s + [a, b, c]
  {
  }

  lemma RestrictAppend(comments: map<string, string>, init: seq<string>, p: string)
    requires forall q :: q in init ==> q in comments
    requires p in comments
    ensures Restrict(comments, init)[p := comments[p]] == Restrict(comments, init + [p])
  {
  }

  /** With comments written as comments, reading the saved lines back gives
      the table that was saved, provided no pattern is changed by `trim` or
      starts with '#', and every comment is one that reads back as itself. */
  lemma LoadAfterSaveCommentedRoundTrip(patterns: seq<string>, comments: map<string, string>)
    requires Table(patterns, comments)
    requires forall p :: p in patterns ==> PlainText(p) && CommentWritable(comments[p])
    ensures LoadLines([], map[], SaveLinesCommented(patterns, comments)) == (patterns, comments)
  {
    LoadOfSavedPrefix(patterns, comments);
    assert Restrict(comments, patterns) == comments;
  }

  // ---------------------------------------------------------------------------
  // The class

  class GitIgnore {
    var patterns: seq<string>
    var comments: map<string, string>

    ghost predicate Valid()
      reads this
    {
      Table(patterns, comments)
    }

    /** A new helper holds an empty table. */
    constructor ()
      ensures Valid() && patterns == [] && comments == map[]
    {
      patterns := [];
      comments := map[];
    }

    /** `addPattern`: a null or empty pattern is ignored, a null comment is
        stored as "", and a pattern already present throws. A new pattern
        goes last. */
    method AddPattern(pattern: Option<string>, comment: Option<string>) returns (outcome: Outcome)
      requires Valid()
      modifies this
      ensures Valid()
      ensures pattern.None? || pattern.value == [] ==> outcome == Pass && patterns == old(patterns) && comments == old(comments)
      ensures pattern.Some? && pattern.value != [] && pattern.value in old(comments) ==>
                outcome == Fail(IllegalArgument) && patterns == old(patterns) && comments == old(comments)
      ensures pattern.Some? && pattern.value != [] && pattern.value !in old(comments) ==>
                && outcome == Pass
                && patterns == old(patterns) + [pattern.value]
                && comments == old(comments)[pattern.value := comment.GetOr("")]
    {
      if pattern.None? || pattern.value == [] {
        return Pass;
      }
      var newComment := comment.GetOr("");
      if pattern.value !in comments {
        patterns, comments := Put(patterns, comments, pattern.value, newComment).0, comments[pattern.value := newComment];
        return Pass;
      }
      return Fail(IllegalArgument);
    }

    /** `removePattern`: removes the pattern if present; the others keep
        their order and comments. (The message it prints is not modelled.) */
    method RemovePattern(pattern: Option<string>)
      requires Valid()
      modifies this
      ensures Valid()
      ensures comments == if pattern.Some? then old(comments) - {pattern.value} else old(comments)
      ensures pattern.None? || pattern.value !in old(comments) ==> patterns == old(patterns)
      ensures pattern.Some? && pattern.value in old(comments) ==>
                var i := IndexOf(old(patterns), pattern.value);
                patterns == old(patterns)[..i] + old(patterns)[i + 1..]
    {
      if pattern.Some? && pattern.value in comments {
        var i := IndexOf(patterns, pattern.value);
        patterns := patterns[..i] + patterns[i + 1..];
        comments := comments - {pattern.value};
        assert forall j :: 0 <= j < |patterns| ==> patterns[j] == old(patterns)[if j < i then j else j + 1];
      }
    }

    /** The reading loop of `loadGitIgnore` over the lines of the file. */
    method LoadGitIgnore(lines: seq<string>)
      requires Valid()
      modifies this
      ensures Valid()
      ensures (patterns, comments) == LoadLines(old(patterns), old(comments), lines)
    {
      var currentComment := "";
      var i := 0;
      while i < |lines|
        invariant 0 <= i <= |lines|
        invariant currentComment == CurrentComment(lines[..i])
        invariant (patterns, comments) == LoadLines(old(patterns), old(comments), lines[..i])
      {
        LoadStep(old(patterns), old(comments), lines, i);
        var line := Trim(lines[i]);
        if IsCommentLine(line) {
          currentComment := CommentText(line);
        } else if line != [] {
          patterns, comments := Put(patterns, comments, line, currentComment).0, comments[line := currentComment];
        }
        i := i + 1;
      }
      assert lines[..i] == lines;
      LoadLinesKeeps(old(patterns), old(comments), lines);
    }

    /** The writing loop of `saveGitIgnore`: the lines of the file. */
    method SaveGitIgnore() returns (lines: seq<string>)
      requires Valid()
      ensures lines == SaveLines(patterns, comments)
    {
      lines := [];
      var lastComment := "";
      var i := 0;
      while i < |patterns|
        invariant 0 <= i <= |patterns|
        invariant forall p :: p in patterns[..i] ==> p in comments
        invariant lastComment == LastWritten(patterns[..i], comments)
        invariant lines == SaveLines(patterns[..i], comments)
      {
        assert patterns[..i + 1][..i] == patterns[..i];
        var comment := comments[patterns[i]];
        if comment != "" && comment != lastComment {
          lines := lines + ["", comment];
          lastComment := comment;
        }
        lines := lines + [patterns[i]];
        i := i + 1;
      }
      assert patterns[..i] == patterns;
    }
  }
}
