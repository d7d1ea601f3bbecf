/** The settings file: lines of key and value, rewritten in place of the keys that change. */
module Ini {

  const LINE_MAX: nat := 192
  const SLACK: nat := 512

  datatype Option<T> = None | Some(value: T)

  datatype Setting = Setting(key: string, value: string)

  // ---- one line ------------------------------------------------------------------------------------

  predicate IsSpace(c: char) { c == ' ' || c == '\t' || c == '\n' || c == '\U{000B}' || c == '\U{000C}' || c == '\r' }

  function TrimLeft(s: string): (r: string)
    ensures r == "" || !IsSpace(r[0])
  {
    if s != "" && IsSpace(s[0]) then TrimLeft(s[1..]) else s
  }

  function TrimRight(s: string): (r: string)
    ensures r == "" || !IsSpace(r[|r| - 1])
  {
    if s != "" && IsSpace(s[|s| - 1]) then TrimRight(s[..|s| - 1]) else s
  }

  function Trim(s: string): string { TrimRight(TrimLeft(s)) }

  /** Where a character first occurs, or the length. */
  function IndexOf(s: string, c: char): (i: nat)
    ensures i <= |s| && (i < |s| ==> s[i] == c) && c !in s[..i]
  {
    if s == "" || s[0] == c then 0 else 1 + IndexOf(s[1..], c)
  }

  /** What string functions see of some characters: everything before the first zero. */
  function CString(s: string): (r: string)
    ensures '\0' !in r && r <= s && (r == s || s[|r|] == '\0')
  {
    s[..IndexOf(s, '\0')]
  }

  function WithoutMark(s: string): string {
    if |s| >= 3 && s[0] == '\U{00EF}' && s[1] == '\U{00BB}' && s[2] == '\U{00BF}' then s[3..] else s
  }

  /** Key and value of a line, unless it is blank, a comment, a section or has no key. */
  function Split(line: string): Option<Setting> {
    var t := Trim(WithoutMark(line));
    if t == "" || t[0] == '#' || t[0] == ';' || t[0] == '[' then None
    else
      var eq := IndexOf(t, '=');
      if eq == |t| then None
      else
        var key, value := Trim(t[..eq]), Trim(t[eq + 1..]);
        if key == "" then None else Some(Setting(key, value))
  }

  /** Carriage returns at the end of a line belong to its ending. */
  function Stripped(s: string): (r: string)
    ensures r <= s
    ensures r == "" || r[|r| - 1] != '\r'
  {
    if s != "" && s[|s| - 1] == '\r' then Stripped(s[..|s| - 1]) else s
  }

  /** A setting that its own line says: nothing in it can be mistaken. */
  predicate Plain(s: Setting) {
    && s.key != "" && !IsSpace(s.key[0]) && !IsSpace(s.key[|s.key| - 1])
    && s.key[0] != '#' && s.key[0] != ';' && s.key[0] != '[' && s.key[0] != '\U{00EF}'
    && '=' !in s.key && '\n' !in s.key && '\n' !in s.value && '\0' !in s.key && '\0' !in s.value
    && (s.value == "" || (!IsSpace(s.value[0]) && !IsSpace(s.value[|s.value| - 1])))
    && |s.key| + 1 + |s.value| < LINE_MAX
  }

  function Written(s: Setting): string { s.key + "=" + s.value }

  lemma TrimStays(s: string)
    requires s != "" ==> !IsSpace(s[0]) && !IsSpace(s[|s| - 1])
    ensures Trim(s) == s
  {}

  lemma {:induction false} IndexAfter(a: string, c: char, b: string)
    requires c !in a
    ensures IndexOf(a + [c] + b, c) == |a|
  {
    if a != "" {
      assert (a + [c] + b)[1..] == a[1..] + [c] + b;
      IndexAfter(a[1..], c, b);
    }
  }

  /** Reading a written setting gives it back, with or without a carriage return. */
  lemma SplitWritten(s: Setting)
    requires Plain(s)
    ensures Split(Written(s)) == Some(s)
    ensures Stripped(Written(s)) == Written(s) && Stripped(Written(s) + "\r") == Written(s)
  {
    hide IsSpace, Stripped, Trim;
    var w := Written(s);
    LastOf(s);
    StripOnce(w);
    TrimStays(w);
    TrimStays(s.key);
    TrimStays(s.value);
    IndexAfter(s.key, '=', s.value);
    assert w == s.key + ['='] + s.value;
    assert w[..|s.key|] == s.key && w[|s.key| + 1..] == s.value;
    assert WithoutMark(w) == w;
  }

  ghost predicate Blank(s: string) { forall i | 0 <= i < |s| :: IsSpace(s[i]) }

  /** Blanks before, between and after key, sign and value do not count. */
  lemma SplitBlanks(s: Setting, a: string, b: string, c: string, d: string)
    requires Plain(s) && Blank(a) && Blank(b) && Blank(c) && Blank(d)
    ensures Split(a + s.key + b + "=" + c + s.value + d) == Some(s)
  {
    hide IsSpace, TrimLeft, TrimRight, Blank, Trim;
    var line, rest := a + s.key + b + "=" + c + s.value + d, c + s.value + d;
    var body := s.key + b + "=" + rest;
    assert line == a + body;
    LeadingBlanks(a, body);
    KeyFirst(s);
    NoMark(a, body);
    var t := TrimRight(body);
    CutBehind(s.key + b, rest);
    assert body == s.key + b + "=" + rest;
    StartStays(body);
    TrimIs(line);
    assert Trim(line) == t;
    StartStays(s.key + b);
    TrailingBlanks(s.key, b);
    EndStays(s.key);
    TrimIs(s.key + b);
    assert Trim(s.key + b) == s.key;
    NoSignIn(s, b);
    IndexAfter(s.key + b, '=', TrimRight(rest));
    assert t == s.key + b + "=" + TrimRight(rest);
    assert t[..|s.key + b|] == s.key + b && t[|s.key + b| + 1..] == TrimRight(rest);
    ValueAlone(s, c, d);
  }

  lemma TrimIs(s: string)
    ensures Trim(s) == TrimRight(TrimLeft(s))
  {}

  lemma KeyFirst(s: Setting)
    requires Plain(s)
    ensures s.key != "" && !IsSpace(s.key[0]) && !IsSpace(s.key[|s.key| - 1]) && s.key[0] != '\U{00EF}'
  {}

  lemma {:induction false} LeadingBlanks(a: string, body: string)
    requires Blank(a)
    ensures TrimLeft(a + body) == TrimLeft(body)
  {
    hide IsSpace;
    if a == "" {
      assert a + body == body;
    } else {
      assert (a + body)[1..] == a[1..] + body;
      LeadingBlanks(a[1..], body);
    }
  }

  lemma {:induction false} TrailingBlanks(body: string, d: string)
    requires Blank(d)
    ensures TrimRight(body + d) == TrimRight(body)
    decreases |d|
  {
    hide IsSpace;
    if d == "" {
      assert body + d == body;
    } else {
      var front := d[..|d| - 1];
      assert (body + d)[..|body + d| - 1] == body + front;
      TrailingBlanks(body, front);
    }
  }

  lemma NoMark(a: string, body: string)
    requires Blank(a) && body != "" && body[0] != '\U{00EF}'
    ensures WithoutMark(a + body) == a + body
  {}

  /** Trimming does not reach over the sign. */
  lemma {:induction false} CutBehind(key: string, rest: string)
    ensures TrimRight(key + "=" + rest) == key + "=" + TrimRight(rest)
    decreases |rest|
  {
    hide IsSpace;
    SignIsNoSpace();
    var w := key + "=" + rest;
    if rest == "" {
      assert w == key + "=" && w[|w| - 1] == '=';
      assert w + TrimRight(rest) == w;
    } else if IsSpace(rest[|rest| - 1]) {
      assert w[..|w| - 1] == key + "=" + rest[..|rest| - 1];
      CutBehind(key, rest[..|rest| - 1]);
    }
  }

  lemma SignIsNoSpace()
    ensures !IsSpace('=')
  {}

  lemma NoSignIn(s: Setting, b: string)
    requires Plain(s) && Blank(b)
    ensures '=' !in s.key + b
  {}

  lemma ValueAlone(s: Setting, c: string, d: string)
    requires Plain(s) && Blank(c) && Blank(d)
    ensures Trim(TrimRight(c + s.value + d)) == s.value
  {
    hide IsSpace, Blank, TrimLeft, TrimRight, Trim, Plain;
    TrailingBlanks(c + s.value, d);
    if s.value == "" {
      assert c + s.value == "" + c;
      TrailingBlanks("", c);
      NothingToTrim();
    } else {
      ValueEnds(s);
      EndStays(c + s.value);
      LeadingBlanks(c, s.value);
      TrimIs(c + s.value);
      TrimIs(s.value);
      TrimStays(s.value);
    }
  }

  lemma ValueEnds(s: Setting)
    requires Plain(s) && s.value != ""
    ensures !IsSpace(s.value[0]) && !IsSpace(s.value[|s.value| - 1])
  {}

  lemma StartStays(w: string)
    requires w != "" && !IsSpace(w[0])
    ensures TrimLeft(w) == w
  {}

  lemma EndStays(w: string)
    requires w != "" && !IsSpace(w[|w| - 1])
    ensures TrimRight(w) == w
  {}

  lemma NothingToTrim()
    ensures TrimRight("") == "" && Trim("") == ""
  {}

  lemma LastOf(s: Setting)
    requires Plain(s)
    ensures var w := Written(s);
      w[0] == s.key[0] && !IsSpace(w[0]) && !IsSpace(w[|w| - 1]) && w[|w| - 1] != '\r'
  {}

  lemma StripOnce(w: string)
    requires w != "" && w[|w| - 1] != '\r'
    ensures Stripped(w) == w && Stripped(w + "\r") == w
  {
    assert (w + "\r")[..|w|] == w;
  }

  // ---- lines of a text ---------------------------------------------------------------------------------

  datatype Line = Line(content: string, ended: bool)

  function Lines(t: string): seq<Line> {
    if t == "" then []
    else
      var k := IndexOf(t, '\n');
      if k < |t| then [Line(t[..k], true)] + Lines(t[k + 1..]) else [Line(t, false)]
  }

  function LineText(l: Line): string { l.content + if l.ended then "\n" else "" }

  function Text(ls: seq<Line>): string {
    if ls == [] then "" else LineText(ls[0]) + Text(ls[1..])
  }

  /** Lines as a text can have them: only the last may lack its end, and then it is not empty. */
  ghost predicate Proper(ls: seq<Line>) {
    && (forall i | 0 <= i < |ls| :: '\n' !in ls[i].content)
    && (forall i | 0 <= i < |ls| - 1 :: ls[i].ended)
    && (ls != [] && !ls[|ls| - 1].ended ==> ls[|ls| - 1].content != "")
  }

  lemma {:induction false} LinesOfText(ls: seq<Line>)
    requires Proper(ls)
    ensures Lines(Text(ls)) == ls
  {
    hide Proper, LineText, IndexOf;
    if ls != [] {
      ProperParts(ls);
      if ls[0].ended {
        LinesOfText(ls[1..]);
        LinesCons(ls[0], Text(ls[1..]));
        assert ls == [ls[0]] + ls[1..];
      } else {
        LastLine(ls[0]);
        assert ls[1..] == [] && ls == [ls[0]];
        assert Text(ls) == LineText(ls[0]);
      }
    }
  }

  lemma ProperParts(ls: seq<Line>)
    requires Proper(ls) && ls != []
    ensures '\n' !in ls[0].content && Proper(ls[1..])
    ensures !ls[0].ended ==> |ls| == 1 && ls[0].content != ""
  {}

  lemma LinesCons(l: Line, rest: string)
    requires l.ended && '\n' !in l.content
    ensures Lines(LineText(l) + rest) == [l] + Lines(rest)
  {
    var t := LineText(l) + rest;
    IndexAfter(l.content, '\n', rest);
    assert t == l.content + ['\n'] + rest;
    assert t[..|l.content|] == l.content && t[|l.content| + 1..] == rest;
  }

  lemma LastLine(l: Line)
    requires !l.ended && '\n' !in l.content && l.content != ""
    ensures Lines(LineText(l)) == [l]
  {
    assert LineText(l) == l.content;
  }

  lemma ProperCons(l: Line, rest: seq<Line>)
    requires l.ended && '\n' !in l.content && Proper(rest)
    ensures Proper([l] + rest)
  {
    var all := [l] + rest;
    forall i | 0 <= i < |all| ensures '\n' !in all[i].content && (i < |all| - 1 ==> all[i].ended) {
      if i > 0 {
        assert all[i] == rest[i - 1];
      }
    }
  }

  lemma {:induction false} TextOfLines(t: string)
    ensures Text(Lines(t)) == t && Proper(Lines(t))
  {
    hide Proper, Text;
    if t == "" {
      NoLines();
    } else {
      var k := IndexOf(t, '\n');
      if k < |t| {
        TextOfLines(t[k + 1..]);
        ProperCons(Line(t[..k], true), Lines(t[k + 1..]));
        TextCons(Line(t[..k], true), Lines(t[k + 1..]));
        assert t == t[..k] + "\n" + t[k + 1..];
      } else {
        assert t[..k] == t;
        OneLine(t);
      }
    }
  }

  lemma NoLines()
    ensures Proper([]) && Text([]) == ""
  {}

  lemma OneLine(t: string)
    requires t != "" && '\n' !in t
    ensures Proper([Line(t, false)]) && Text([Line(t, false)]) == t
  {
    assert [Line(t, false)][1..] == [];
  }

  lemma TextCons(l: Line, rest: seq<Line>)
    ensures Text([l] + rest) == LineText(l) + Text(rest)
  {
    assert ([l] + rest)[1..] == rest;
  }

  // ---- what saving means -----------------------------------------------------------------------------

  /** The setting on a line, as the saver sees it: lines that are too long have none. */
  function SettingOf(l: Line): Option<Setting> {
    if |Stripped(l.content)| < LINE_MAX then Split(CString(Stripped(l.content))) else None
  }

  /** The settings of a text as the saver sees them, in order. */
  function Entries(ls: seq<Line>): seq<Setting> {
    if ls == [] then []
    else (match SettingOf(ls[0]) case None => [] case Some(s) => [s]) + Entries(ls[1..])
  }

  /** The update for a key, if there is one. */
  function Wanted(us: seq<Setting>, key: string): Option<Setting> {
    if us == [] then None else if us[0].key == key then Some(us[0]) else Wanted(us[1..], key)
  }

  function Renewed(us: seq<Setting>, s: Setting): Setting {
    match Wanted(us, s.key) case None => s case Some(u) => u
  }

  /** A line after saving: its setting renewed, one carriage return kept. */
  function SavedLine(us: seq<Setting>, l: Line): Line {
    match SettingOf(l)
    case None => l
    case Some(s) =>
      match Wanted(us, s.key)
      case None => l
      case Some(u) => Line(Written(u) + (if |Stripped(l.content)| < |l.content| then "\r" else ""), l.ended)
  }

  function SavedLines(us: seq<Setting>, ls: seq<Line>): (r: seq<Line>)
    ensures |r| == |ls| && forall i | 0 <= i < |ls| :: r[i] == SavedLine(us, ls[i])
  {
    if ls == [] then [] else [SavedLine(us, ls[0])] + SavedLines(us, ls[1..])
  }

  predicate Holds(es: seq<Setting>, key: string) { exists i :: 0 <= i < |es| && es[i].key == key }

  /** The updates whose keys the text does not have yet. */
  function Missing(us: seq<Setting>, es: seq<Setting>): seq<Setting> {
    if us == [] then []
    else (if Holds(es, us[0].key) then [] else [us[0]]) + Missing(us[1..], es)
  }

  function Appended(us: seq<Setting>): seq<Line> {
    if us == [] then [] else [Line(Written(us[0]), true)] + Appended(us[1..])
  }

  function Terminated(ls: seq<Line>): seq<Line> {
    if ls == [] then [] else ls[..|ls| - 1] + [ls[|ls| - 1].(ended := true)]
  }

  /** The whole file after saving. */
  function Saved(us: seq<Setting>, ls: seq<Line>): seq<Line> {
    var missing := Missing(us, Entries(ls));
    if missing == [] then SavedLines(us, ls) else Terminated(SavedLines(us, ls)) + Appended(missing)
  }

  ghost predicate AllPlain(us: seq<Setting>) { forall i | 0 <= i < |us| :: Plain(us[i]) }

  lemma {:induction false} WantedIsOne(us: seq<Setting>, key: string)
    ensures Wanted(us, key).Some? ==> Wanted(us, key).value in us && Wanted(us, key).value.key == key
    ensures Wanted(us, key).None? <==> forall i | 0 <= i < |us| :: us[i].key != key
  {
    if us != [] {
      WantedIsOne(us[1..], key);
      assert forall i | 1 <= i < |us| :: us[i] == us[1..][i - 1];
    }
  }

  /** A saved line says what the old one said, renewed. */
  lemma SavedLineSays(us: seq<Setting>, l: Line)
    requires AllPlain(us)
    ensures SettingOf(SavedLine(us, l)) ==
      match SettingOf(l) { case None => None case Some(s) => Some(Renewed(us, s)) }
    ensures '\n' !in l.content ==> '\n' !in SavedLine(us, l).content
    ensures SavedLine(us, l).ended == l.ended && (l.content != "" ==> SavedLine(us, l).content != "")
  {
    hide Split, Stripped;
    if SettingOf(l).Some? {
      WantedIsOne(us, SettingOf(l).value.key);
      var w := Wanted(us, SettingOf(l).value.key);
      if w.Some? {
        assert Plain(w.value);
        SplitWritten(w.value);
        WholeWritten(w.value);
        assert Written(w.value) + "" == Written(w.value);
      }
    }
  }

  function RenewAll(us: seq<Setting>, es: seq<Setting>): (r: seq<Setting>)
    ensures |r| == |es| && forall i | 0 <= i < |es| :: r[i] == Renewed(us, es[i])
  {
    if es == [] then [] else [Renewed(us, es[0])] + RenewAll(us, es[1..])
  }

  lemma {:induction false} RenewConcat(us: seq<Setting>, a: seq<Setting>, b: seq<Setting>)
    ensures RenewAll(us, a + b) == RenewAll(us, a) + RenewAll(us, b)
  {}

  lemma {:induction false} SavedLinesSay(us: seq<Setting>, ls: seq<Line>)
    requires AllPlain(us)
    ensures Entries(SavedLines(us, ls)) == RenewAll(us, Entries(ls))
  {
    hide SettingOf, SavedLine, Renewed;
    if ls != [] {
      SavedLineSays(us, ls[0]);
      SavedLinesSay(us, ls[1..]);
      assert SavedLines(us, ls)[1..] == SavedLines(us, ls[1..]);
      var head := match SettingOf(ls[0]) case None => [] case Some(s) => [s];
      RenewConcat(us, head, Entries(ls[1..]));
    }
  }

  lemma {:induction false} EntriesConcat(a: seq<Line>, b: seq<Line>)
    ensures Entries(a + b) == Entries(a) + Entries(b)
  {
    hide SettingOf;
    if a == [] {
      assert a + b == b;
    } else {
      assert (a + b)[1..] == a[1..] + b;
      EntriesConcat(a[1..], b);
    }
  }

  lemma TerminatedSays(ls: seq<Line>)
    ensures Entries(Terminated(ls)) == Entries(ls)
  {
    hide Split, Stripped;
    if ls != [] {
      var front, last := ls[..|ls| - 1], ls[|ls| - 1];
      assert ls == front + [last];
      EntriesConcat(front, [last]);
      EntriesConcat(front, [last.(ended := true)]);
      assert [last][1..] == [] && [last.(ended := true)][1..] == [];
    }
  }

  lemma {:induction false} AppendedSays(us: seq<Setting>)
    requires AllPlain(us)
    ensures Entries(Appended(us)) == us
  {
    hide Split, Stripped, Plain;
    if us != [] {
      OneSetting(us[0]);
      AppendedSays(us[1..]);
      assert Appended(us)[1..] == Appended(us[1..]);
      assert us == [us[0]] + us[1..];
    }
  }

  lemma OneSetting(s: Setting)
    requires Plain(s)
    ensures SettingOf(Line(Written(s), true)) == Some(s)
  {
    hide Split, Stripped, CString;
    SplitWritten(s);
    WholeWritten(s);
  }

  lemma WholeWritten(s: Setting)
    requires Plain(s)
    ensures CString(Written(s)) == Written(s) && '\0' !in Written(s)
  {
    NotCut(Written(s));
  }

  lemma NotCut(s: string)
    requires '\0' !in s
    ensures CString(s) == s
  {}

  lemma {:induction false} MissingPlain(us: seq<Setting>, es: seq<Setting>)
    requires AllPlain(us)
    ensures AllPlain(Missing(us, es))
  {
    hide Plain;
    if us != [] {
      assert forall i | 0 <= i < |us[1..]| :: us[1..][i] == us[i + 1];
      MissingPlain(us[1..], es);
    }
  }

  /** Parsing the saved file gives the old settings, renewed where asked, then the new ones. */
  lemma SavedSays(us: seq<Setting>, ls: seq<Line>)
    requires AllPlain(us)
    ensures Entries(Saved(us, ls)) == RenewAll(us, Entries(ls)) + Missing(us, Entries(ls))
  {
    hide Entries, RenewAll, Missing, Terminated, SavedLines, Appended, AllPlain;
    SavedLinesSay(us, ls);
    TerminatedSays(SavedLines(us, ls));
    MissingPlain(us, Entries(ls));
    AppendedSays(Missing(us, Entries(ls)));
    EntriesConcat(Terminated(SavedLines(us, ls)), Appended(Missing(us, Entries(ls))));
  }

  lemma SavedLinesProper(us: seq<Setting>, ls: seq<Line>)
    requires AllPlain(us) && Proper(ls)
    ensures Proper(SavedLines(us, ls))
  {
    hide SavedLine, AllPlain;
    forall i | 0 <= i < |ls|
      ensures '\n' !in SavedLines(us, ls)[i].content && SavedLines(us, ls)[i].ended == ls[i].ended
      ensures ls[i].content != "" ==> SavedLines(us, ls)[i].content != ""
    {
      SavedLineSays(us, ls[i]);
    }
  }

  lemma {:induction false} AppendedProper(us: seq<Setting>)
    requires AllPlain(us)
    ensures forall i | 0 <= i < |Appended(us)| :: '\n' !in Appended(us)[i].content && Appended(us)[i].ended
  {
    hide Plain;
    if us != [] {
      PlainLine(us[0]);
      assert forall i | 0 <= i < |us[1..]| :: us[1..][i] == us[i + 1];
      AppendedProper(us[1..]);
    }
  }

  lemma PlainLine(s: Setting)
    requires Plain(s)
    ensures '\n' !in Written(s)
  {}

  /** Ended lines after a text whose last line is given its end. */
  lemma ProperJoin(ls: seq<Line>, more: seq<Line>)
    requires Proper(ls) && forall i | 0 <= i < |more| :: '\n' !in more[i].content && more[i].ended
    ensures Proper(Terminated(ls) + more)
  {
    var a := Terminated(ls);
    assert forall i | 0 <= i < |a| :: '\n' !in a[i].content && a[i].ended;
    forall i | 0 <= i < |a + more| ensures '\n' !in (a + more)[i].content && (a + more)[i].ended {
      if i >= |a| {
        assert (a + more)[i] == more[i - |a|];
      }
    }
  }

  // ---- the saver ------------------------------------------------------------------------------------------

  /** Appending to a buffer of limited room; one byte stays for the end mark. */
  method Append(out: string, room: nat, text: string) returns (fits: bool, r: string)
    ensures fits <==> |out| + |text| < room
    ensures r == if fits then out + text else out
  {
    fits := |out| + |text| < room;
    r := if fits then out + text else out;
  }

  /** Finds the end of the line that starts here. */
  method NextLine(file: string, pos: nat) returns (content: string, ended: bool, next: nat)
    requires pos < |file|
    ensures pos < next <= |file|
    ensures Lines(file[pos..]) == [Line(content, ended)] + Lines(file[next..])
    ensures '\n' !in content
  {
    var end := pos;
    while end < |file| && file[end] != '\n'
      invariant pos <= end <= |file| && '\n' !in file[pos..end]
    {
      end := end + 1;
    }
    content := file[pos..end];
    ended := end < |file|;
    next := if ended then end + 1 else end;
    var t := file[pos..];
    if ended {
      assert t == content + ['\n'] + file[next..];
      IndexAfter(content, '\n', file[next..]);
      assert t[..|content|] == content && t[|content| + 1..] == file[next..];
    } else {
      assert t == content && file[next..] == "";
    }
  }

  /** The line that goes out: renewed if the setting still fits, left alone otherwise. */
  function LineInRoom(us: seq<Setting>, l: Line, used: nat, room: nat): Line {
    match SettingOf(l)
    case None => l
    case Some(s) =>
      match Wanted(us, s.key)
      case None => l
      case Some(u) => if used + |Written(u)| < room then SavedLine(us, l) else l
  }

  function LinesInRoom(us: seq<Setting>, ls: seq<Line>, used: nat, room: nat): (r: seq<Line>)
    ensures |r| == |ls|
  {
    if ls == [] then []
    else
      var l := LineInRoom(us, ls[0], used, room);
      [l] + LinesInRoom(us, ls[1..], used + |LineText(l)|, room)
  }

  /** The text a save makes of a file, given its room. */
  function InRoom(us: seq<Setting>, ls: seq<Line>, room: nat): string {
    var t, missing := Text(LinesInRoom(us, ls, 0, room)), Missing(us, Entries(ls));
    if missing == [] then t else Closed(t) + Text(Appended(missing))
  }

  /** One line: renewed if asked for and if it fits, copied otherwise. */
  method SaveLine(out: string, room: nat, us: seq<Setting>, l: Line) returns (ok: bool, r: string, key: Option<string>)
    requires |out| < room
    ensures key == (match SettingOf(l) case None => None case Some(s) => if Wanted(us, s.key).Some? then Some(s.key) else None)
    ensures ok <==> |out| + |LineText(LineInRoom(us, l, |out|, room))| < room
    ensures ok ==> r == out + LineText(LineInRoom(us, l, |out|, room))
  {
    hide Split, Stripped, Wanted, Written, CString;
    var content := Stripped(l.content);
    r := out;
    key := None;
    var ending := if l.ended then "\n" else "";
    if |content| < LINE_MAX {
      var s := Split(CString(content));
      if s.Some? && Wanted(us, s.value.key).Some? {
        key := Some(s.value.key);
        var written := Written(Wanted(us, s.value.key).value);
        var handled;
        handled, r := Append(out, room, written);
        if handled {
          var cr := if |content| < |l.content| then "\r" else "";
          ok, r := Append(r, room, cr);
          if ok {
            ok, r := Append(r, room, ending);
          }
          Regroup(out, written, cr, ending);
          return;
        }
      }
    }
    ok, r := Append(r, room, l.content);
    if ok {
      ok, r := Append(r, room, ending);
    }
    Regroup(out, l.content, "", ending);
    assert l.content + "" == l.content;
  }

  lemma Regroup(a: string, b: string, c: string, d: string)
    ensures a + b + c + d == a + ((b + c) + d)
    ensures a + b + d == a + (b + d)
  {}

  ghost predicate Roomy(us: seq<Setting>, file: string) { |Text(Saved(us, Lines(file)))| < |file| + SLACK }

  /** The keys seen so far are those of the settings so far that are to be updated. */
  ghost predicate Seen(found: set<string>, us: seq<Setting>, es: seq<Setting>) {
    forall i | 0 <= i < |us| :: us[i].key in found <==> Holds(es, us[i].key)
  }

  /** All lines of the file, renewed as long as there is room. */
  method SaveLines(file: string, room: nat, us: seq<Setting>) returns (ok: bool, out: string, found: set<string>)
    requires 0 < room
    ensures ok <==> |Text(LinesInRoom(us, Lines(file), 0, room))| < room
    ensures ok ==> out == Text(LinesInRoom(us, Lines(file), 0, room)) && Seen(found, us, Entries(Lines(file)))
  {
    hide LineInRoom, SettingOf, Wanted, Seen, Lines, Text, Entries, LinesInRoom, LineText;
    ghost var all := Text(LinesInRoom(us, Lines(file), 0, room));
    ghost var done: seq<Line> := [];
    out, found, ok := "", {}, true;
    var pos := 0;
    NothingSeen(us);
    assert file[0..] == file;
    while pos < |file|
      invariant 0 <= pos <= |file| && ok && |out| < room
      invariant Lines(file) == done + Lines(file[pos..])
      invariant out + Text(LinesInRoom(us, Lines(file[pos..]), |out|, room)) == all
      invariant Seen(found, us, Entries(done))
      decreases |file| - pos
    {
      var content, ended, next := NextLine(file, pos);
      var l, rest := Line(content, ended), file[next..];
      var key;
      ghost var was := out;
      ok, out, key := SaveLine(out, room, us, l);
      RoomHead(us, l, Lines(rest), |was|, room);
      SeenMore(found, us, done, l, key);
      ghost var chosen := LineText(LineInRoom(us, l, |was|, room));
      Shorter(was, chosen, Text(LinesInRoom(us, Lines(rest), |was| + |chosen|, room)));
      if !ok {
        return;
      }
      if key.Some? {
        found := found + {key.value};
      }
      done := done + [l];
      pos := next;
    }
    EndOfFile(us, file, pos, done, |out|, room);
  }

  lemma NothingSeen(us: seq<Setting>)
    ensures Seen({}, us, Entries([]))
  {}

  lemma RoomHead(us: seq<Setting>, l: Line, rest: seq<Line>, used: nat, room: nat)
    ensures var chosen := LineInRoom(us, l, used, room);
      LinesInRoom(us, [l] + rest, used, room) == [chosen] + LinesInRoom(us, rest, used + |LineText(chosen)|, room)
    ensures var chosen := LineInRoom(us, l, used, room);
      Text(LinesInRoom(us, [l] + rest, used, room)) ==
        LineText(chosen) + Text(LinesInRoom(us, rest, used + |LineText(chosen)|, room))
  {
    hide LineInRoom, LineText, Text;
    var chosen := LineInRoom(us, l, used, room);
    assert ([l] + rest)[1..] == rest;
    TextCons(chosen, LinesInRoom(us, rest, used + |LineText(chosen)|, room));
  }

  lemma Shorter(a: string, b: string, c: string)
    ensures |a + b| <= |a + (b + c)| && a + b + c == a + (b + c)
  {}

  lemma SeenMore(found: set<string>, us: seq<Setting>, done: seq<Line>, l: Line, key: Option<string>)
    requires key == (match SettingOf(l) case None => None case Some(s) => if Wanted(us, s.key).Some? then Some(s.key) else None)
    ensures Seen(found, us, Entries(done)) ==>
      Seen(if key.Some? then found + {key.value} else found, us, Entries(done + [l]))
  {
    hide SettingOf;
    EntriesConcat(done, [l]);
    assert [l][1..] == [];
    if SettingOf(l).Some? {
      var s := SettingOf(l).value;
      WantedIsOne(us, s.key);
      assert Entries([l]) == [s];
      forall i | 0 <= i < |us| ensures Holds(Entries(done) + [s], us[i].key) <==> Holds(Entries(done), us[i].key) || s.key == us[i].key {
        HoldsMore(Entries(done), s, us[i].key);
      }
    } else {
      assert Entries([l]) == [] && Entries(done) + [] == Entries(done);
    }
  }

  lemma HoldsMore(es: seq<Setting>, s: Setting, key: string)
    ensures Holds(es + [s], key) <==> Holds(es, key) || s.key == key
  {
    if Holds(es, key) {
      var i :| 0 <= i < |es| && es[i].key == key;
      assert (es + [s])[i].key == key;
    }
    if s.key == key {
      assert (es + [s])[|es|].key == key;
    }
  }

  lemma EndOfFile(us: seq<Setting>, file: string, pos: nat, done: seq<Line>, used: nat, room: nat)
    requires pos == |file|
    ensures Lines(file[pos..]) == [] && Text(LinesInRoom(us, [], used, room)) == ""
    ensures done + Lines(file[pos..]) == done
  {}

  /** Saves the updates into a file. The text is written to the card as a string: what follows
      a zero in it is not written. */
  method Save(file: string, us: seq<Setting>) returns (ok: bool, written: string)
    ensures ok <==> |InRoom(us, Lines(file), |file| + SLACK)| < |file| + SLACK
    ensures ok ==> written == CString(InRoom(us, Lines(file), |file| + SLACK))
  {
    hide Seen, Lines, Text, Entries, LinesInRoom, Missing, Appended, CString;
    var room := |file| + SLACK;
    ghost var es := Entries(Lines(file));
    var found, out;
    written := "";
    ok, out, found := SaveLines(file, room, us);
    if !ok {
      return;
    }
    MissingFound(us, es, found);
    if exists i | 0 <= i < |us| :: us[i].key !in found {
      if out != "" && out[|out| - 1] != '\n' {
        ghost var was := out;
        ok, out := Append(out, room, "\n");
        Shorter(was, "\n", Text(Appended(Missing(us, es))));
        if !ok {
          return;
        }
      }
      ok, out := AppendMissing(out, room, us, found, es);
    }
    written := CString(out);
  }

  /** The settings that no line had. */
  method AppendMissing(out: string, room: nat, us: seq<Setting>, found: set<string>, ghost es: seq<Setting>)
    returns (ok: bool, r: string)
    requires |out| < room && Seen(found, us, es)
    ensures ok <==> |out + Text(Appended(Missing(us, es)))| < room
    ensures ok ==> r == out + Text(Appended(Missing(us, es)))
  {
    hide Seen, Text, Missing, Appended, Written;
    r, ok := out, true;
    var i := 0;
    assert us[0..] == us;
    while i < |us|
      invariant 0 <= i <= |us| && ok && |r| < room
      invariant r + Text(Appended(Missing(us[i..], es))) == out + Text(Appended(Missing(us, es)))
    {
      ghost var was := r;
      SeenAt(found, us, es, i);
      MissingHead(us[i..], es);
      assert us[i..][1..] == us[i + 1..];
      if us[i].key !in found {
        ok, r := Append(r, room, Written(us[i]) + "\n");
        Shorter(was, Written(us[i]) + "\n", Text(Appended(Missing(us[i + 1..], es))));
        if !ok {
          return;
        }
      } else {
        assert "" + Text(Appended(Missing(us[i + 1..], es))) == Text(Appended(Missing(us[i + 1..], es)));
      }
      i := i + 1;
    }
    NothingMissing(us[i..], es);
    assert r + "" == r;
  }

  /** With room for every line, every line is renewed. */
  lemma {:induction false} RoomForAll(us: seq<Setting>, ls: seq<Line>, used: nat, room: nat)
    requires used + |Text(SavedLines(us, ls))| < room
    ensures LinesInRoom(us, ls, used, room) == SavedLines(us, ls)
  {
    hide SavedLine, LineInRoom, LineText, Text;
    if ls != [] {
      var l := SavedLine(us, ls[0]);
      TextCons(l, SavedLines(us, ls[1..]));
      RoomForLine(us, ls[0], used, room);
      RoomForAll(us, ls[1..], used + |LineText(l)|, room);
    }
  }

  lemma RoomForLine(us: seq<Setting>, l: Line, used: nat, room: nat)
    requires used + |LineText(SavedLine(us, l))| < room
    ensures LineInRoom(us, l, used, room) == SavedLine(us, l)
  {
    hide SettingOf, Written, Stripped;
  }

  /** A save is complete exactly when the complete text has room: with less, it either fails or
      reports success with an update left out. */
  lemma RoomyIff(us: seq<Setting>, file: string)
    requires AllPlain(us)
    ensures var t := InRoom(us, Lines(file), |file| + SLACK);
      Roomy(us, file) <==> |t| < |file| + SLACK && t == Text(Saved(us, Lines(file)))
  {
    hide SavedLines, AllPlain, Lines, Text, Entries, LinesInRoom, Missing, Appended, Saved;
    TextOfLines(file);
    SavedText(us, Lines(file));
    if Roomy(us, file) {
      RoomForAll(us, Lines(file), 0, |file| + SLACK);
    }
  }

  function Closed(t: string): string { if t != "" && t[|t| - 1] != '\n' then t + "\n" else t }

  /** The final text is the renewed lines, a line end if one is wanting, and the new settings. */
  lemma SavedText(us: seq<Setting>, ls: seq<Line>)
    requires AllPlain(us) && Proper(ls)
    ensures var t, missing := Text(SavedLines(us, ls)), Missing(us, Entries(ls));
      && |t| <= |Text(Saved(us, ls))|
      && Text(Saved(us, ls)) == if missing == [] then t else Closed(t) + Text(Appended(missing))
  {
    hide SavedLines, Appended, Missing, Entries, Text, Terminated, AllPlain, Proper;
    SavedLinesProper(us, ls);
    TerminatedText(SavedLines(us, ls));
    TextConcat(Terminated(SavedLines(us, ls)), Appended(Missing(us, Entries(ls))));
  }

  lemma {:induction false} TextConcat(a: seq<Line>, b: seq<Line>)
    ensures Text(a + b) == Text(a) + Text(b)
  {
    hide LineText;
    if a == [] {
      assert a + b == b;
    } else {
      assert (a + b)[1..] == a[1..] + b;
      TextConcat(a[1..], b);
    }
  }

  lemma TerminatedText(ls: seq<Line>)
    requires Proper(ls)
    ensures Text(Terminated(ls)) == Closed(Text(ls))
  {
    if ls != [] {
      var front, last := ls[..|ls| - 1], ls[|ls| - 1];
      assert ls == front + [last];
      TextConcat(front, [last]);
      TextConcat(front, [last.(ended := true)]);
      assert [last][1..] == [] && [last.(ended := true)][1..] == [];
      assert Text([last]) == LineText(last) && Text([last.(ended := true)]) == last.content + "\n";
      if !last.ended {
        assert Text(ls) == Text(front) + last.content;
        assert Text(ls)[|Text(ls)| - 1] == last.content[|last.content| - 1];
        assert last.content[|last.content| - 1] in last.content;
      } else {
        assert Text(ls) == Text(front) + (last.content + "\n");
      }
    }
  }

  lemma {:induction false} MissingFound(us: seq<Setting>, es: seq<Setting>, found: set<string>)
    ensures Seen(found, us, es) ==> ((exists i | 0 <= i < |us| :: us[i].key !in found) <==> Missing(us, es) != [])
  {
    hide Holds;
    if us != [] {
      MissingFound(us[1..], es, found);
      assert forall i | 0 <= i < |us[1..]| :: us[1..][i] == us[i + 1];
      if exists i | 0 <= i < |us| :: us[i].key !in found {
        var i :| 0 <= i < |us| && us[i].key !in found;
        assert i > 0 ==> us[1..][i - 1] == us[i];
      }
    }
  }

  lemma SeenAt(found: set<string>, us: seq<Setting>, es: seq<Setting>, i: nat)
    requires i < |us|
    ensures Seen(found, us, es) ==> (us[i].key in found <==> Holds(es, us[i].key))
  {}

  lemma MissingHead(us: seq<Setting>, es: seq<Setting>)
    requires us != []
    ensures Text(Appended(Missing(us, es))) ==
      (if Holds(es, us[0].key) then "" else Written(us[0]) + "\n") + Text(Appended(Missing(us[1..], es)))
  {
    hide Holds, Written, Text, Appended;
    var rest := Missing(us[1..], es);
    if !Holds(es, us[0].key) {
      AppendedHead(us[0], rest);
    } else {
      assert [] + rest == rest;
      assert "" + Text(Appended(rest)) == Text(Appended(rest));
    }
  }

  lemma AppendedHead(s: Setting, rest: seq<Setting>)
    ensures Text(Appended([s] + rest)) == Written(s) + "\n" + Text(Appended(rest))
  {
    hide Written, Text;
    assert ([s] + rest)[1..] == rest;
    TextCons(Line(Written(s), true), Appended(rest));
  }

  lemma NothingMissing(us: seq<Setting>, es: seq<Setting>)
    requires us == []
    ensures Text(Appended(Missing(us, es))) == ""
  {}

  ghost predicate Distinct(us: seq<Setting>) { forall i, j | 0 <= i < j < |us| :: us[i].key != us[j].key }

  ghost predicate Good(us: seq<Setting>) { AllPlain(us) && Distinct(us) }

  lemma WantedMember(us: seq<Setting>, s: Setting)
    requires Distinct(us) && s in us
    ensures Wanted(us, s.key) == Some(s)
  {
    WantedIsOne(us, s.key);
    var i :| 0 <= i < |us| && us[i] == s;
    var w := Wanted(us, s.key).value;
    var j :| 0 <= j < |us| && us[j] == w;
  }

  // ---- room ------------------------------------------------------------------------------------------------

  /** No key to be updated stands on two lines. */
  ghost predicate OnceEach(us: seq<Setting>, es: seq<Setting>) {
    forall i, j | 0 <= i < j < |es| :: es[i].key == es[j].key ==> Wanted(us, es[i].key).None?
  }

  function Cost(us: seq<Setting>, key: string): nat {
    match Wanted(us, key) case None => 0 case Some(u) => |Written(u)|
  }

  /** What renewing the settings may add to the file. */
  function Growth(us: seq<Setting>, es: seq<Setting>): nat {
    if es == [] then 0 else Growth(us, es[..|es| - 1]) + Cost(us, es[|es| - 1].key)
  }

  function Spent(us: seq<Setting>, es: seq<Setting>): nat {
    if us == [] then 0 else (if Holds(es, us[0].key) then |Written(us[0])| else 0) + Spent(us[1..], es)
  }

  function Total(us: seq<Setting>): nat {
    if us == [] then 0 else |Written(us[0])| + 1 + Total(us[1..])
  }

  lemma {:induction false} SpentMore(us: seq<Setting>, es: seq<Setting>, e: Setting)
    requires Distinct(us) && (Wanted(us, e.key).Some? ==> !Holds(es, e.key))
    ensures Spent(us, es + [e]) == Spent(us, es) + Cost(us, e.key)
    decreases |us|
  {
    hide Holds, Written;
    if us != [] {
      var u := us[0];
      HoldsMore(es, e, u.key);
      TailDistinct(us);
      if u.key == e.key {
        WantedIsOne(us[1..], e.key);
        SpentMore(us[1..], es, e);
      } else {
        SpentMore(us[1..], es, e);
      }
    }
  }

  lemma TailDistinct(us: seq<Setting>)
    requires us != [] && Distinct(us)
    ensures Distinct(us[1..]) && forall i | 0 <= i < |us[1..]| :: us[1..][i].key != us[0].key
  {
    assert forall i | 0 <= i < |us[1..]| :: us[1..][i] == us[i + 1];
  }

  lemma {:induction false} GrowthIsSpent(us: seq<Setting>, es: seq<Setting>)
    requires Distinct(us) && OnceEach(us, es)
    ensures Growth(us, es) == Spent(us, es)
    decreases |es|
  {
    hide Wanted, Spent, Cost, Distinct;
    if es == [] {
      SpentNothing(us);
    } else {
      var front, last := es[..|es| - 1], es[|es| - 1];
      assert es == front + [last];
      GrowthIsSpent(us, front);
      if Holds(front, last.key) {
        var i :| 0 <= i < |front| && front[i].key == last.key;
        assert es[i].key == es[|es| - 1].key;
      }
      SpentMore(us, front, last);
    }
  }

  lemma {:induction false} SpentNothing(us: seq<Setting>)
    ensures Spent(us, []) == 0
  {
    if us != [] {
      SpentNothing(us[1..]);
    }
  }

  lemma {:induction false} SpentAndMissing(us: seq<Setting>, es: seq<Setting>)
    ensures Spent(us, es) + |Text(Appended(Missing(us, es)))| <= Total(us)
    decreases |us|
  {
    hide Holds, Written, Text, Appended;
    if us == [] {
      NothingMissing(us, es);
    } else {
      MissingHead(us, es);
      SpentAndMissing(us[1..], es);
    }
  }

  lemma LineGrows(us: seq<Setting>, l: Line)
    ensures |LineText(SavedLine(us, l))| <= |LineText(l)| + (match SettingOf(l) case None => 0 case Some(s) => Cost(us, s.key))
  {
    hide Split, Wanted, Written;
  }

  lemma {:induction false} LinesGrow(us: seq<Setting>, ls: seq<Line>)
    ensures |Text(SavedLines(us, ls))| <= |Text(ls)| + Growth(us, Entries(ls))
    decreases |ls|
  {
    hide SavedLine, SettingOf, LineText, Cost;
    if ls != [] {
      var front, last := ls[..|ls| - 1], ls[|ls| - 1];
      assert ls == front + [last];
      LinesGrow(us, front);
      LineGrows(us, last);
      assert SavedLines(us, ls) == SavedLines(us, front) + [SavedLine(us, last)];
      TextConcat(SavedLines(us, front), [SavedLine(us, last)]);
      TextConcat(front, [last]);
      OneText(last);
      OneText(SavedLine(us, last));
      EntriesConcat(front, [last]);
      OneEntry(us, Entries(front), last);
    }
  }

  lemma OneText(l: Line)
    ensures Text([l]) == LineText(l)
  {
    assert [l][1..] == [];
    assert LineText(l) + "" == LineText(l);
  }

  lemma OneEntry(us: seq<Setting>, es: seq<Setting>, l: Line)
    ensures Growth(us, es + Entries([l])) == Growth(us, es) + (match SettingOf(l) case None => 0 case Some(s) => Cost(us, s.key))
  {
    hide SettingOf, Cost;
    assert [l][1..] == [];
    match SettingOf(l) {
      case None => assert es + [] == es;
      case Some(s) =>
        assert Entries([l]) == [s];
        assert (es + [s])[..|es|] == es;
    }
  }

  /** The slack always suffices when the updates are short and no key is repeated. */
  lemma SlackSuffices(us: seq<Setting>, file: string)
    requires AllPlain(us) && Distinct(us) && OnceEach(us, Entries(Lines(file))) && Total(us) + 1 < SLACK
    ensures Roomy(us, file)
  {
    hide Growth, Spent, SavedLines, Entries, Appended, Missing, Saved, AllPlain, Distinct, OnceEach;
    TextOfLines(file);
    SavedText(us, Lines(file));
    LinesGrow(us, Lines(file));
    GrowthIsSpent(us, Entries(Lines(file)));
    SpentAndMissing(us, Entries(Lines(file)));
  }

  // ---- numbers -----------------------------------------------------------------------------------------------

  function Digit(n: nat): char
    requires n < 10
  {
    '0' + (n as char)
  }

  function Decimal(n: nat): (s: string)
    ensures s != "" && forall i | 0 <= i < |s| :: '0' <= s[i] <= '9'
  {
    if n < 10 then [Digit(n)] else Decimal(n / 10) + [Digit(n % 10)]
  }

  /** The value of a text of digits. */
  function Number(s: string): nat
    requires forall i | 0 <= i < |s| :: '0' <= s[i] <= '9'
  {
    if s == "" then 0 else 10 * Number(s[..|s| - 1]) + (s[|s| - 1] as int - '0' as int)
  }

  /** A number read as it was written; only zero starts with a zero, so it is not taken for octal. */
  lemma {:induction false} DecimalReads(n: nat)
    ensures Number(Decimal(n)) == n && (Decimal(n)[0] == '0' ==> n == 0)
    ensures n < 10 ==> |Decimal(n)| == 1
  {
    if n < 10 {
      assert Decimal(n)[..0] == "";
    } else {
      DecimalReads(n / 10);
      assert Decimal(n)[..|Decimal(n)| - 1] == Decimal(n / 10);
    }
  }

  lemma DecimalStep(n: nat)
    ensures |Decimal(n)| == if n < 10 then 1 else |Decimal(n / 10)| + 1
  {}

  lemma ShortDecimal(n: nat)
    requires n < 10000
    ensures |Decimal(n)| <= 4
  {
    hide Decimal;
    DecimalStep(n);
    DecimalStep(n / 10);
    DecimalStep(n / 10 / 10);
    DecimalStep(n / 10 / 10 / 10);
    assert n / 10 < 1000 && n / 10 / 10 < 100 && n / 10 / 10 / 10 < 10;
  }
}
