/** The command line a desktop entry or a user unit starts the menu with, and its reading back by
    the rules of whoever reads it: for an entry the string escapes, the argument quoting and the
    field codes of the Desktop Entry Specification, for a unit systemd's quoting and specifiers. What
    is run is the path that was written, whatever characters it has. */
module DesktopExec {
  import opened Basics

  // -------------------------------------------------------------------------
  // Reading a text character by character, and writing one
  // -------------------------------------------------------------------------

  /** The state of a reader after a text. */
  function Read<S>(step: (S, char) -> S, x: S, s: string): S {
    if |s| == 0 then x else step(Read(step, x, s[..|s| - 1]), s[|s| - 1])
  }

  /** A text with each character replaced. */
  function Replaced(code: char -> string, s: string): string {
    if |s| == 0 then [] else Replaced(code, s[..|s| - 1]) + code(s[|s| - 1])
  }

  lemma {:induction false} ReadJoins<S>(step: (S, char) -> S, x: S, s: string, t: string)
    ensures Read(step, x, s + t) == Read(step, Read(step, x, s), t)
  {
    if |t| == 0 {
      assert s + t == s;
    } else {
      assert (s + t)[..|s + t| - 1] == s + t[..|t| - 1];
      ReadJoins(step, x, s, t[..|t| - 1]);
    }
  }

  lemma ReadOne<S>(step: (S, char) -> S, x: S, c: char)
    ensures Read(step, x, [c]) == step(x, c)
  {
    assert [c][..0] == [];
  }

  lemma ReadTwo<S>(step: (S, char) -> S, x: S, b: char, c: char)
    ensures Read(step, x, [b, c]) == step(step(x, b), c)
  {
    assert [b, c] == [b] + [c];
    ReadJoins(step, x, [b], [c]);
    ReadOne(step, x, b);
    ReadOne(step, step(x, b), c);
  }

  /** A reader that takes the replacement of each character for the character takes the replaced text
      for the text. */
  lemma {:induction false} ReadReplaced<S(!new)>(step: (S, char) -> S, code: char -> string, put: (S, char) -> S, good: S -> bool, x: S, s: string)
    requires good(x)
    requires forall y, c :: good(y) ==> Read(step, y, code(c)) == put(y, c) && good(put(y, c))
    ensures Read(step, x, Replaced(code, s)) == Read(put, x, s) && good(Read(put, x, s))
  {
    if |s| > 0 {
      var before, c := s[..|s| - 1], s[|s| - 1];
      ReadReplaced(step, code, put, good, x, before);
      ReadJoins(step, x, Replaced(code, before), code(c));
    }
  }

  // -------------------------------------------------------------------------
  // quoteExec
  // -------------------------------------------------------------------------

  predicate Forbidden(c: char) {
    c == '\r' || c == '\n' || c == '\t' || c == '\0' || c == '='
  }

  predicate Accepted(path: string) {
    |path| > 0 && path[0] == '/' && forall i :: 0 <= i < |path| ==> !Forbidden(path[i])
  }

  function Percent(c: char): string {
    if c == '%' then [c, c] else [c]
  }

  function DesktopQuote(c: char): string {
    if c == '\\' || c == '\"' || c == '$' || c == '`' then ['\\', c] else [c]
  }

  function UnitQuote(c: char): string {
    if c == '\\' || c == '\"' then ['\\', c] else [c]
  }

  function Slash(c: char): string {
    if c == '\\' then [c, c] else [c]
  }

  function QuoteExec(path: string, desktop: bool): Option<string> {
    if !Accepted(path) then None
    else
      var value := Replaced(Percent, path);
      Some(['\"'] + (if desktop then Replaced(Slash, Replaced(DesktopQuote, value)) else Replaced(UnitQuote, value)) + ['\"'])
  }

  const MENU := ['m', 'e', 'n', 'u']
  const START_FLAG := ['-', '-', 's', 't', 'a', 'r', 't']

  // -------------------------------------------------------------------------
  // Desktop Entry Specification, section 4: the escapes of a string value
  // -------------------------------------------------------------------------

  datatype Unescaped = Unescaped(out: string, escaped: bool, ok: bool)

  function Unescape(u: Unescaped, c: char): Unescaped {
    if !u.escaped then
      if c == '\\' then u.(escaped := true) else u.(out := u.out + [c])
    else if c == 's' then u.(out := u.out + [' '], escaped := false)
    else if c == 'n' then u.(out := u.out + ['\n'], escaped := false)
    else if c == 't' then u.(out := u.out + ['\t'], escaped := false)
    else if c == 'r' then u.(out := u.out + ['\r'], escaped := false)
    else if c == '\\' then u.(out := u.out + ['\\'], escaped := false)
    else u.(escaped := false, ok := false)
  }

  const UNREAD := Unescaped([], false, true)

  // -------------------------------------------------------------------------
  // Section 7, the Exec key: arguments, quoting, field codes; and a unit's own quoting
  // -------------------------------------------------------------------------

  /** Between arguments, in a bare one, in a quoted one, after a backslash in it, past its end. */
  datatype Place = Between | Bare | InQuote | Backslash | Closed

  datatype Split = Split(args: seq<string>, current: string, place: Place, ok: bool)

  const NO_ARGUMENTS := Split([], [], Between, true)

  /** Characters an argument may hold only in quotes. */
  predicate Reserved(c: char) {
    || c == '\t' || c == '\n' || c == '\"' || c == '\'' || c == '\\' || c == '>' || c == '<' || c == '~'
    || c == '|' || c == '&' || c == ';' || c == '$' || c == '*' || c == '?' || c == '#' || c == '(' || c == ')' || c == '`'
  }

  /** Outside quotes. */
  function SplitBare(x: Split, c: char): Split {
    if c == ' ' then
      if x.place.Between? then x else Split(x.args + [x.current], [], Between, x.ok)
    else if x.place.Between? && c == '\"' then x.(place := InQuote)
    else if Reserved(c) || x.place.Closed? then x.(ok := false)
    else x.(current := x.current + [c], place := Bare)
  }

  function DesktopSplit(x: Split, c: char): Split {
    match x.place
    case InQuote =>
      if c == '\\' then x.(place := Backslash)
      else if c == '\"' then x.(place := Closed)
      else if c == '$' || c == '`' then x.(ok := false)
      else x.(current := x.current + [c])
    case Backslash =>
      if c == '\\' || c == '\"' || c == '$' || c == '`' then x.(current := x.current + [c], place := InQuote)
      else x.(ok := false)
    case _ => SplitBare(x, c)
  }

  function UnitSplit(x: Split, c: char): Split {
    match x.place
    case InQuote =>
      if c == '\\' then x.(place := Backslash)
      else if c == '\"' then x.(place := Closed)
      else x.(current := x.current + [c])
    case Backslash =>
      if c == '\\' || c == '\"' then x.(current := x.current + [c], place := InQuote) else x.(ok := false)
    case _ => SplitBare(x, c)
  }

  function Arguments(x: Split): Option<seq<string>> {
    if !x.ok || x.place.InQuote? || x.place.Backslash? then None
    else if x.place.Between? then Some(x.args)
    else Some(x.args + [x.current])
  }

  /** A doubled percent sign is one; any other would stand for something else. */
  datatype Expanded = Expanded(out: string, percent: bool, ok: bool)

  function Expand(x: Expanded, c: char): Expanded {
    if x.percent then Expanded(if c == '%' then x.out + [c] else x.out, false, x.ok && c == '%')
    else if c == '%' then x.(percent := true)
    else x.(out := x.out + [c])
  }

  function ExpandAll(args: seq<string>): Option<seq<string>> {
    if args == [] then Some([])
    else
      var before, last := ExpandAll(args[..|args| - 1]), Read(Expand, Expanded([], false, true), args[|args| - 1]);
      if before.None? || !last.ok || last.percent then None else Some(before.value + [last.out])
  }

  /** How a desktop reads an Exec value: unescape the string, split it into arguments, expand each. */
  function ReadExec(value: string): Option<seq<string>> {
    var u := Read(Unescape, UNREAD, value);
    if u.escaped || !u.ok then None
    else
      var args := Arguments(Read(DesktopSplit, NO_ARGUMENTS, u.out));
      if args.None? then None else ExpandAll(args.value)
  }

  /** How systemd reads a command line whose environment expansion is off. */
  function ReadUnit(value: string): Option<seq<string>> {
    var args := Arguments(Read(UnitSplit, NO_ARGUMENTS, value));
    if args.None? then None else ExpandAll(args.value)
  }

  // -------------------------------------------------------------------------
  // Each reading undoes its writing
  // -------------------------------------------------------------------------

  function PutText(u: Unescaped, c: char): Unescaped {
    u.(out := u.out + [c])
  }

  function PutArgument(x: Split, c: char): Split {
    x.(current := x.current + [c])
  }

  function PutExpanded(x: Expanded, c: char): Expanded {
    x.(out := x.out + [c])
  }

  predicate Unescaping(u: Unescaped) {
    !u.escaped
  }

  predicate Quoting(x: Split) {
    x.place.InQuote?
  }

  predicate Expanding(x: Expanded) {
    !x.percent
  }

  lemma {:induction false} PutTexts(u: Unescaped, s: string)
    ensures Read(PutText, u, s) == u.(out := u.out + s)
  {
    if |s| > 0 { PutTexts(u, s[..|s| - 1]); }
  }

  lemma {:induction false} PutArguments(x: Split, s: string)
    ensures Read(PutArgument, x, s) == x.(current := x.current + s)
  {
    if |s| > 0 { PutArguments(x, s[..|s| - 1]); }
  }

  lemma {:induction false} PutExpandeds(x: Expanded, s: string)
    ensures Read(PutExpanded, x, s) == x.(out := x.out + s)
  {
    if |s| > 0 { PutExpandeds(x, s[..|s| - 1]); }
  }

  lemma UnescapeUndoesSlash(u: Unescaped, s: string)
    requires Unescaping(u)
    ensures Read(Unescape, u, Replaced(Slash, s)) == u.(out := u.out + s)
  {
    forall y, c | Unescaping(y) ensures Read(Unescape, y, Slash(c)) == PutText(y, c) && Unescaping(PutText(y, c)) {
      ReadOne(Unescape, y, c);
      ReadTwo(Unescape, y, c, c);
    }
    ReadReplaced(Unescape, Slash, PutText, Unescaping, u, s);
    PutTexts(u, s);
  }

  lemma SplitUndoesQuote(x: Split, s: string)
    requires Quoting(x)
    ensures Read(DesktopSplit, x, Replaced(DesktopQuote, s)) == x.(current := x.current + s)
  {
    forall y, c | Quoting(y) ensures Read(DesktopSplit, y, DesktopQuote(c)) == PutArgument(y, c) && Quoting(PutArgument(y, c)) {
      ReadOne(DesktopSplit, y, c);
      ReadTwo(DesktopSplit, y, '\\', c);
    }
    ReadReplaced(DesktopSplit, DesktopQuote, PutArgument, Quoting, x, s);
    PutArguments(x, s);
  }

  lemma SplitUndoesUnitQuote(x: Split, s: string)
    requires Quoting(x)
    ensures Read(UnitSplit, x, Replaced(UnitQuote, s)) == x.(current := x.current + s)
  {
    forall y, c | Quoting(y) ensures Read(UnitSplit, y, UnitQuote(c)) == PutArgument(y, c) && Quoting(PutArgument(y, c)) {
      ReadOne(UnitSplit, y, c);
      ReadTwo(UnitSplit, y, '\\', c);
    }
    ReadReplaced(UnitSplit, UnitQuote, PutArgument, Quoting, x, s);
    PutArguments(x, s);
  }

  lemma ExpandUndoesPercent(s: string)
    ensures Read(Expand, Expanded([], false, true), Replaced(Percent, s)) == Expanded(s, false, true)
  {
    forall y, c | Expanding(y) ensures Read(Expand, y, Percent(c)) == PutExpanded(y, c) && Expanding(PutExpanded(y, c)) {
      ReadOne(Expand, y, c);
      ReadTwo(Expand, y, c, c);
    }
    ReadReplaced(Expand, Percent, PutExpanded, Expanding, Expanded([], false, true), s);
    PutExpandeds(Expanded([], false, true), s);
    assert [] + s == s;
  }

  lemma {:induction false} PlainUnescapes(u: Unescaped, s: string)
    requires Unescaping(u) && forall i :: 0 <= i < |s| ==> s[i] != '\\'
    ensures Read(Unescape, u, s) == u.(out := u.out + s)
  {
    if |s| > 0 { PlainUnescapes(u, s[..|s| - 1]); }
  }

  lemma {:induction false} PlainExpands(x: Expanded, s: string)
    requires Expanding(x) && forall i :: 0 <= i < |s| ==> s[i] != '%'
    ensures Read(Expand, x, s) == x.(out := x.out + s)
  {
    if |s| > 0 { PlainExpands(x, s[..|s| - 1]); }
  }

  // -------------------------------------------------------------------------
  // The whole line
  // -------------------------------------------------------------------------

  /** The step reads bare text as every reader does, and a quote ends a quoted argument. */
  ghost predicate Splits(step: (Split, char) -> Split) {
    && (forall x: Split, c: char :: !x.place.InQuote? && !x.place.Backslash? ==> step(x, c) == SplitBare(x, c))
    && (forall x: Split :: x.place.InQuote? ==> step(x, '\"') == x.(place := Closed))
  }

  predicate IsBareWord(s: string) {
    |s| > 0 && forall i :: 0 <= i < |s| ==> s[i] != ' ' && !Reserved(s[i])
  }

  lemma {:induction false} BareWord(step: (Split, char) -> Split, x: Split, s: string)
    requires Splits(step) && x.place.Between? && x.current == [] && |s| > 0
    requires forall i :: 0 <= i < |s| ==> s[i] != ' ' && !Reserved(s[i])
    ensures Read(step, x, s) == x.(current := s, place := Bare)
  {
    var before, c := s[..|s| - 1], s[|s| - 1];
    if |before| > 0 { BareWord(step, x, before); }
    assert before + [c] == s;
  }

  lemma OneMoreWord(step: (Split, char) -> Split, x: Split, word: string)
    requires Splits(step) && (x.place.Bare? || x.place.Closed?) && IsBareWord(word)
    ensures Read(step, x, [' '] + word) == Split(x.args + [x.current], word, Bare, x.ok)
  {
    ReadJoins(step, x, [' '], word);
    ReadOne(step, x, ' ');
    BareWord(step, step(x, ' '), word);
  }

  lemma QuotedThenWord(step: (Split, char) -> Split, quoted: string, path: string, word: string)
    requires Splits(step) && step(NO_ARGUMENTS, '\"') == Split([], [], InQuote, true) && IsBareWord(word)
    requires Read(step, Split([], [], InQuote, true), quoted) == Split([], path, InQuote, true)
    ensures Read(step, NO_ARGUMENTS, ['\"'] + quoted + ['\"'] + ([' '] + word)) == Split([path], word, Bare, true)
  {
    ReadJoins(step, NO_ARGUMENTS, ['\"'] + quoted + ['\"'], [' '] + word);
    ReadJoins(step, NO_ARGUMENTS, ['\"'] + quoted, ['\"']);
    ReadJoins(step, NO_ARGUMENTS, ['\"'], quoted);
    ReadOne(step, NO_ARGUMENTS, '\"');
    ReadOne(step, Split([], path, InQuote, true), '\"');
    OneMoreWord(step, Split([], path, Closed, true), word);
    assert [] + [path] == [path];
  }

  lemma QuotedUnescapes(q: string)
    ensures Read(Unescape, UNREAD, ['\"'] + Replaced(Slash, q) + ['\"']) == Unescaped(['\"'] + q + ['\"'], false, true)
  {
    ReadJoins(Unescape, UNREAD, ['\"'] + Replaced(Slash, q), ['\"']);
    ReadJoins(Unescape, UNREAD, ['\"'], Replaced(Slash, q));
    ReadOne(Unescape, UNREAD, '\"');
    var begun := Unescaped(['\"'], false, true);
    assert Unescape(UNREAD, '\"') == begun;
    UnescapeUndoesSlash(begun, q);
    ReadOne(Unescape, begun.(out := ['\"'] + q), '\"');
  }

  lemma ThenPlain(s: string, out: string, tail: string)
    requires Read(Unescape, UNREAD, s) == Unescaped(out, false, true) && forall i :: 0 <= i < |tail| ==> tail[i] != '\\'
    ensures Read(Unescape, UNREAD, s + tail) == Unescaped(out + tail, false, true)
  {
    ReadJoins(Unescape, UNREAD, s, tail);
    PlainUnescapes(Unescaped(out, false, true), tail);
  }

  lemma EntryUnescapes(q: string, word: string, last: string)
    requires IsBareWord(word) && IsBareWord(last)
    ensures Read(Unescape, UNREAD, ['\"'] + Replaced(Slash, q) + ['\"'] + ([' '] + word) + ([' '] + last))
            == Unescaped(['\"'] + q + ['\"'] + ([' '] + word) + ([' '] + last), false, true)
  {
    QuotedUnescapes(q);
    ThenPlain(['\"'] + Replaced(Slash, q) + ['\"'], ['\"'] + q + ['\"'], [' '] + word);
    ThenPlain(['\"'] + Replaced(Slash, q) + ['\"'] + ([' '] + word), ['\"'] + q + ['\"'] + ([' '] + word), [' '] + last);
  }

  lemma OneMoreExpands(args: seq<string>, expanded: seq<string>, a: string, text: string)
    requires ExpandAll(args) == Some(expanded) && Read(Expand, Expanded([], false, true), a) == Expanded(text, false, true)
    ensures ExpandAll(args + [a]) == Some(expanded + [text])
  {
    assert (args + [a])[..|args|] == args;
  }

  lemma PlainWordExpands(word: string)
    requires forall i :: 0 <= i < |word| ==> word[i] != '%'
    ensures Read(Expand, Expanded([], false, true), word) == Expanded(word, false, true)
  {
    PlainExpands(Expanded([], false, true), word);
    assert [] + word == word;
  }

  lemma ArgumentsExpand(path: string, word: string, last: string)
    requires forall i :: 0 <= i < |word| ==> word[i] != '%'
    requires forall i :: 0 <= i < |last| ==> last[i] != '%'
    ensures ExpandAll([Replaced(Percent, path)] + [word]) == Some([path] + [word])
    ensures ExpandAll([Replaced(Percent, path)] + [word] + [last]) == Some([path] + [word] + [last])
  {
    var a := Replaced(Percent, path);
    ExpandUndoesPercent(path);
    PlainWordExpands(word);
    PlainWordExpands(last);
    OneMoreExpands([], [], a, path);
    assert [] + [a] == [a] && [] + [path] == [path];
    OneMoreExpands([a], [path], word, word);
    OneMoreExpands([a] + [word], [path] + [word], last, last);
  }

  lemma EntrySplits(p: string, word: string, last: string)
    requires IsBareWord(word) && IsBareWord(last)
    ensures Arguments(Read(DesktopSplit, NO_ARGUMENTS, ['\"'] + Replaced(DesktopQuote, p) + ['\"'] + ([' '] + word) + ([' '] + last)))
            == Some([p] + [word] + [last])
  {
    SplitUndoesQuote(Split([], [], InQuote, true), p);
    assert [] + p == p;
    assert Splits(DesktopSplit);
    QuotedThenWord(DesktopSplit, Replaced(DesktopQuote, p), p, word);
    ReadJoins(DesktopSplit, NO_ARGUMENTS, ['\"'] + Replaced(DesktopQuote, p) + ['\"'] + ([' '] + word), [' '] + last);
    OneMoreWord(DesktopSplit, Split([p], word, Bare, true), last);
  }

  lemma UnitSplits(p: string, word: string)
    requires IsBareWord(word)
    ensures Arguments(Read(UnitSplit, NO_ARGUMENTS, ['\"'] + Replaced(UnitQuote, p) + ['\"'] + ([' '] + word))) == Some([p] + [word])
  {
    SplitUndoesUnitQuote(Split([], [], InQuote, true), p);
    assert [] + p == p;
    assert Splits(UnitSplit);
    QuotedThenWord(UnitSplit, Replaced(UnitQuote, p), p, word);
  }

  lemma EntryReads(path: string, word: string, last: string)
    requires Accepted(path) && IsBareWord(word) && IsBareWord(last)
    requires forall i :: 0 <= i < |word| ==> word[i] != '%'
    requires forall i :: 0 <= i < |last| ==> last[i] != '%'
    ensures ReadExec(QuoteExec(path, true).value + ([' '] + word) + ([' '] + last)) == Some([path] + [word] + [last])
  {
    EntryUnescapes(Replaced(DesktopQuote, Replaced(Percent, path)), word, last);
    EntrySplits(Replaced(Percent, path), word, last);
    ArgumentsExpand(path, word, last);
  }

  /** A path is quoted exactly when it is absolute and holds no line break, tab, null or equals sign. */
  lemma QuotedExactlyWhen(path: string, desktop: bool)
    ensures QuoteExec(path, desktop).Some? <==>
              ['/'] <= path && forall c :: c in path ==> c !in {'\r', '\n', '\t', '\0', '='}
  {
    if QuoteExec(path, desktop).None? && ['/'] <= path {
      var i :| 0 <= i < |path| && Forbidden(path[i]);
      assert path[i] in path;
    }
  }

  /** Every accepted path survives a desktop entry: what is run is that path, with the two arguments the
      entry gives it, whatever quotes, dollars, backslashes, percent signs or spaces it has. */
  lemma DesktopRunsThePath(path: string)
    requires Accepted(path)
    ensures QuoteExec(path, true).Some?
    ensures ReadExec(QuoteExec(path, true).value + ([' '] + MENU) + ([' '] + START_FLAG)) == Some([path] + [MENU] + [START_FLAG])
  {
    EntryReads(path, MENU, START_FLAG);
  }

  /** And a user unit, by systemd's quoting and specifiers. */
  lemma UnitRunsThePath(path: string)
    requires Accepted(path)
    ensures QuoteExec(path, false).Some?
    ensures ReadUnit(QuoteExec(path, false).value + ([' '] + MENU)) == Some([path] + [MENU])
  {
    UnitSplits(Replaced(Percent, path), MENU);
    ArgumentsExpand(path, MENU, START_FLAG);
  }
}
