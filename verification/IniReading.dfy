/** What the loaders make of the settings file once a save is on the card, and exactly when
    they read back what was saved. */
module IniReading {
  import opened Ini

  // ---- what a loader sees --------------------------------------------------------------------------------

  /** A loader's line buffer takes this much of a line; the rest of the line is skipped. */
  const READ_MAX: nat := LINE_MAX - 1

  function Head(s: string): string { if |s| <= READ_MAX then s else s[..READ_MAX] }

  /** The setting a loader sees on a line, or on what is left of it before a zero. */
  function ReadSetting(l: Line): Option<Setting> { Split(Stripped(Head(CString(l.content)))) }

  function Readings(ls: seq<Line>): seq<Setting> {
    if ls == [] then []
    else (match ReadSetting(ls[0]) case None => [] case Some(s) => [s]) + Readings(ls[1..])
  }

  /** Most loaders go through the whole file: the last line with the key that can be parsed counts. */
  function Loaded<T>(es: seq<Setting>, key: string, parse: string -> Option<T>): Option<T> {
    if es == [] then None
    else
      var last := es[|es| - 1];
      if last.key == key && parse(last.value).Some? then parse(last.value) else Loaded(es[..|es| - 1], key, parse)
  }

  /** The language loader stops at the first line with the key, whatever it says. */
  function FirstLoaded<T>(es: seq<Setting>, key: string, parse: string -> Option<T>): Option<T> {
    if es == [] then None else if es[0].key == key then parse(es[0].value) else FirstLoaded(es[1..], key, parse)
  }

  /** What the loaders find on the card after a save; one that fails leaves the file as it was. */
  function OnCard(us: seq<Setting>, file: string): seq<Setting> {
    Readings(Lines(if Succeeds(us, file) then CString(InRoom(us, Lines(file), |file| + SLACK)) else file))
  }

  /** The save reports success. */
  predicate Succeeds(us: seq<Setting>, file: string) {
    |InRoom(us, Lines(file), |file| + SLACK)| < |file| + SLACK
  }

  lemma {:induction false} ReadingsConcat(a: seq<Line>, b: seq<Line>)
    ensures Readings(a + b) == Readings(a) + Readings(b)
  {
    hide ReadSetting;
    if a == [] {
      assert a + b == b;
    } else {
      assert (a + b)[1..] == a[1..] + b;
      ReadingsConcat(a[1..], b);
    }
  }

  lemma OneReading(l: Line)
    ensures Readings([l]) == match ReadSetting(l) case None => [] case Some(s) => [s]
  {
    hide ReadSetting;
    assert [l][1..] == [];
  }

  lemma SameReading(l: Line, m: Line)
    requires l.content == m.content
    ensures ReadSetting(l) == ReadSetting(m)
  {}

  // ---- the saver's view and the loaders' ------------------------------------------------------------------

  /** Carriage returns at the end are spaces to the parser. */
  lemma {:induction false} SplitStripped(s: string)
    ensures Split(Stripped(s)) == Split(s)
  {
    hide IsSpace, Trim;
    if s != "" && s[|s| - 1] == '\r' {
      var front := s[..|s| - 1];
      SplitStripped(front);
      assert s == front + "\r";
      TrimReturn(WithoutMark(front));
      assert WithoutMark(front + "\r") == WithoutMark(front) + "\r";
    }
  }

  lemma TrimReturn(s: string)
    ensures Trim(s + "\r") == Trim(s)
  {
    hide TrimRight;
    TrimLeftReturn(s);
    RightReturn(TrimLeft(s));
    RightReturn("");
  }

  lemma {:induction false} TrimLeftReturn(s: string)
    ensures TrimLeft(s + "\r") == (if TrimLeft(s) == "" then "" else TrimLeft(s) + "\r")
  {
    if s == "" {
      assert (s + "\r")[1..] == "";
    } else {
      assert (s + "\r")[1..] == s[1..] + "\r";
      TrimLeftReturn(s[1..]);
    }
  }

  lemma RightReturn(s: string)
    ensures TrimRight(s + "\r") == TrimRight(s)
  {
    assert (s + "\r")[..|s|] == s;
  }

  lemma {:induction false} StrippedTail(s: string)
    ensures forall i | |Stripped(s)| <= i < |s| :: s[i] == '\r'
  {
    if s != "" && s[|s| - 1] == '\r' {
      StrippedTail(s[..|s| - 1]);
    }
  }

  lemma {:induction false} StripsTo(s: string, t: string)
    requires t <= s && (t == "" || t[|t| - 1] != '\r') && forall i | |t| <= i < |s| :: s[i] == '\r'
    ensures Stripped(s) == t
    decreases |s|
  {
    if s != t {
      StripsTo(s[..|s| - 1], t);
    }
  }

  /** Wherever the saver sees a setting, the loaders see the same one. */
  lemma SeenIsRead(l: Line)
    requires SettingOf(l).Some?
    ensures ReadSetting(l) == SettingOf(l)
  {
    hide Split, CString, Stripped;
    var c := l.content;
    var t := Stripped(c);
    StrippedTail(c);
    if '\0' in c {
      CutEarly(c, t);
      SplitStripped(CString(t));
    } else {
      NotCut(c);
      NotCut(t);
      StripsTo(Head(c), t);
    }
  }

  lemma CutEarly(c: string, t: string)
    requires '\0' in c && t <= c && forall i | |t| <= i < |c| :: c[i] == '\r'
    ensures CString(c) == CString(t) && |CString(c)| < |t|
  {
    var p := |CString(c)|;
    assert t[p] == c[p] == '\0' && c[..p] == t[..p];
    CutAt(t, CString(c));
  }

  /** On a line without zeros and of at most 191 characters both see the same. */
  lemma ShortIsSeen(l: Line)
    requires '\0' !in l.content && |l.content| <= READ_MAX
    ensures ReadSetting(l) == SettingOf(l)
  {
    hide Split;
    NotCut(l.content);
    NotCut(Stripped(l.content));
  }

  // ---- lines up to the first zero ---------------------------------------------------------------------------

  function Cut(ls: seq<Line>): seq<Line> {
    if ls == [] then []
    else if '\0' in ls[0].content then
      (if CString(ls[0].content) == "" then [] else [Line(CString(ls[0].content), false)])
    else [ls[0]] + Cut(ls[1..])
  }

  ghost predicate ZeroFree(ls: seq<Line>) { forall i | 0 <= i < |ls| :: '\0' !in ls[i].content }

  /** The lines that are on the card at least in part. */
  function Visible(ls: seq<Line>): (n: nat)
    ensures n <= |ls|
  {
    if ls == [] then 0 else if '\0' in ls[0].content then 1 else 1 + Visible(ls[1..])
  }

  lemma {:induction false} VisibleIff(ls: seq<Line>, i: nat)
    requires i < |ls|
    ensures i < Visible(ls) <==> ZeroFree(ls[..i])
    decreases |ls|
  {
    if i > 0 {
      VisibleIff(ls[1..], i - 1);
      FreeCons(ls[0], ls[1..][..i - 1]);
      assert ls[..i] == [ls[0]] + ls[1..][..i - 1];
    }
  }

  lemma FreeCons(l: Line, rest: seq<Line>)
    ensures ZeroFree([l] + rest) <==> '\0' !in l.content && ZeroFree(rest)
  {
    var all := [l] + rest;
    assert all[0] == l && forall i | 0 <= i < |rest| :: rest[i] == all[i + 1];
    if '\0' !in l.content && ZeroFree(rest) {
      assert forall i | 0 < i < |all| :: all[i] == rest[i - 1];
    }
  }

  lemma {:induction false} AllVisible(ls: seq<Line>)
    requires ZeroFree(ls)
    ensures Visible(ls) == |ls| && Cut(ls) == ls
  {
    if ls != [] {
      assert forall i | 0 <= i < |ls[1..]| :: ls[1..][i] == ls[i + 1];
      AllVisible(ls[1..]);
      assert ls == [ls[0]] + ls[1..];
    }
  }

  lemma CutText(l: Line, rest: string)
    ensures '\0' in l.content ==> CString(LineText(l) + rest) == CString(l.content)
    ensures '\0' !in l.content ==> CString(LineText(l) + rest) == LineText(l) + CString(rest)
  {
    var t := LineText(l) + rest;
    if '\0' in l.content {
      CutAt(t, CString(l.content));
    } else {
      CutAt(t, LineText(l) + CString(rest));
    }
  }

  /** The cut is the prefix without zeros that ends at a zero or at the end. */
  lemma CutAt(t: string, p: string)
    requires p <= t && '\0' !in p && (p == t || t[|p|] == '\0')
    ensures CString(t) == p
  {}

  lemma {:induction false} TextOfCut(ls: seq<Line>)
    ensures Text(Cut(ls)) == CString(Text(ls))
  {
    hide LineText, CString;
    if ls == [] {
      NotCut("");
    } else {
      CutText(ls[0], Text(ls[1..]));
      TextOfCut(ls[1..]);
      if '\0' in ls[0].content {
        PartLine(CString(ls[0].content));
      } else {
        TextCons(ls[0], Cut(ls[1..]));
      }
    }
  }

  lemma PartLine(s: string)
    ensures Text([]) == "" && Text([Line(s, false)]) == s
  {
    assert [Line(s, false)][1..] == [];
  }

  lemma {:induction false} CutProper(ls: seq<Line>)
    requires Proper(ls)
    ensures Proper(Cut(ls))
  {
    hide Proper, CString;
    if ls == [] {
      NoLines();
    } else {
      ProperParts(ls);
      var c := CString(ls[0].content);
      if '\0' in ls[0].content {
        NoLines();
        PartClean(ls[0].content);
        if c != "" {
          OneLine(c);
        }
      } else {
        CutProper(ls[1..]);
        if ls[0].ended {
          ProperCons(ls[0], Cut(ls[1..]));
        } else {
          assert ls[1..] == [] && Cut(ls) == [ls[0]] == ls;
        }
      }
    }
  }

  lemma PartClean(s: string)
    ensures '\n' !in s ==> '\n' !in CString(s)
  {}

  /** Reading the written text is reading the lines up to the first zero. */
  lemma CutReads(ls: seq<Line>)
    requires Proper(ls)
    ensures Readings(Lines(CString(Text(ls)))) == Readings(ls[..Visible(ls)])
  {
    hide *;
    TextOfCut(ls);
    CutProper(ls);
    LinesOfText(Cut(ls));
    ReadingsOfCut(ls);
  }

  lemma {:induction false} ReadingsOfCut(ls: seq<Line>)
    ensures Readings(Cut(ls)) == Readings(ls[..Visible(ls)])
  {
    hide ReadSetting, CString;
    if ls != [] {
      ReadingsOfCut(ls[1..]);
      if '\0' in ls[0].content {
        var c := CString(ls[0].content);
        assert ls[..1] == [ls[0]];
        OneReading(ls[0]);
        OneReading(Line(c, false));
        PartReading(ls[0]);
      } else {
        assert ls[..Visible(ls)] == [ls[0]] + ls[1..][..Visible(ls[1..])];
        ReadingsConcat([ls[0]], Cut(ls[1..]));
        ReadingsConcat([ls[0]], ls[1..][..Visible(ls[1..])]);
      }
    }
  }

  lemma PartReading(l: Line)
    ensures ReadSetting(Line(CString(l.content), false)) == ReadSetting(l)
    ensures CString(l.content) == "" ==> ReadSetting(l) == None
  {
    hide Split;
    NotCut(CString(l.content));
    EmptySplit();
  }

  lemma EmptySplit()
    ensures Split("") == None
  {}

  // ---- what a save puts out ----------------------------------------------------------------------------------

  /** Line i goes out renewed: it asks for it and its new text still fits. */
  predicate Renews(us: seq<Setting>, ls: seq<Line>, room: nat, i: nat)
    requires i < |ls|
  {
    && SettingOf(ls[i]).Some? && Wanted(us, SettingOf(ls[i]).value.key).Some?
    && UsedBefore(us, ls, room, i) + |Written(Wanted(us, SettingOf(ls[i]).value.key).value)| < room
  }

  /** The room that the lines before line i have taken. */
  function UsedBefore(us: seq<Setting>, ls: seq<Line>, room: nat, i: nat): nat
    requires i < |ls|
  {
    |Text(LinesInRoom(us, ls, 0, room)[..i])|
  }

  lemma {:induction false} RoomAt(us: seq<Setting>, ls: seq<Line>, used: nat, room: nat, i: nat)
    requires i < |ls|
    ensures LinesInRoom(us, ls, used, room)[i] ==
      LineInRoom(us, ls[i], used + |Text(LinesInRoom(us, ls, used, room)[..i])|, room)
    decreases |ls|
  {
    hide LineInRoom, LineText, Text;
    var l := LineInRoom(us, ls[0], used, room);
    var rest := LinesInRoom(us, ls[1..], used + |LineText(l)|, room);
    if i == 0 {
      NoText(LinesInRoom(us, ls, used, room)[..0]);
    } else {
      RoomAt(us, ls[1..], used + |LineText(l)|, room, i - 1);
      assert LinesInRoom(us, ls, used, room)[..i] == [l] + rest[..i - 1];
      TextCons(l, rest[..i - 1]);
    }
  }

  lemma NoText(ls: seq<Line>)
    requires ls == []
    ensures |Text(ls)| == 0
  {}

  /** What the loaders see on line i as it goes out. */
  lemma OutReads(us: seq<Setting>, ls: seq<Line>, room: nat, i: nat)
    requires AllPlain(us) && i < |ls|
    ensures var l := LinesInRoom(us, ls, 0, room)[i];
      && (!Renews(us, ls, room, i) ==> l == ls[i])
      && (Renews(us, ls, room, i) ==> '\0' !in l.content && ReadSetting(l) == Wanted(us, SettingOf(ls[i]).value.key))
      && ('\n' !in ls[i].content ==> '\n' !in l.content)
      && l.ended == ls[i].ended && (ls[i].content != "" ==> l.content != "")
  {
    hide SettingOf, ReadSetting, LinesInRoom, AllPlain, Written, Wanted, Text;
    RoomAt(us, ls, 0, room, i);
    SavedLineSays(us, ls[i]);
    if Renews(us, ls, room, i) {
      var key := SettingOf(ls[i]).value.key;
      RenewedClean(us, ls[i]);
      SeenIsRead(SavedLine(us, ls[i]));
    }
  }

  lemma RenewedClean(us: seq<Setting>, l: Line)
    requires AllPlain(us) && SettingOf(l).Some? && Wanted(us, SettingOf(l).value.key).Some?
    ensures '\0' !in SavedLine(us, l).content
    ensures SettingOf(SavedLine(us, l)) == Wanted(us, SettingOf(l).value.key)
  {
    hide SettingOf, Written;
    SavedLineSays(us, l);
    WantedIsOne(us, SettingOf(l).value.key);
    WholeWritten(Wanted(us, SettingOf(l).value.key).value);
  }

  /** All lines that go out. */
  function OutLines(us: seq<Setting>, ls: seq<Line>, room: nat): seq<Line> {
    var missing := Missing(us, Entries(ls));
    if missing == [] then LinesInRoom(us, ls, 0, room) else Terminated(LinesInRoom(us, ls, 0, room)) + Appended(missing)
  }

  lemma OutProper(us: seq<Setting>, ls: seq<Line>, room: nat)
    requires AllPlain(us) && Proper(ls)
    ensures Proper(LinesInRoom(us, ls, 0, room)) && Proper(OutLines(us, ls, room))
    ensures Text(OutLines(us, ls, room)) == InRoom(us, ls, room)
  {
    hide LinesInRoom, Missing, Appended, Terminated, Entries, AllPlain, Text, Renews, ReadSetting;
    var out, missing := LinesInRoom(us, ls, 0, room), Missing(us, Entries(ls));
    forall i | 0 <= i < |ls|
      ensures '\n' !in out[i].content && out[i].ended == ls[i].ended && (ls[i].content != "" ==> out[i].content != "")
    {
      OutReads(us, ls, room, i);
    }
    MissingPlain(us, Entries(ls));
    AppendedProper(missing);
    ProperJoin(out, Appended(missing));
    TerminatedText(out);
    TextConcat(Terminated(out), Appended(missing));
  }

  /** What is appended reads as the missing settings, and has no zeros. */
  lemma {:induction false} AppendedReads(us: seq<Setting>)
    requires AllPlain(us)
    ensures Readings(Appended(us)) == us
    ensures ZeroFree(Appended(us))
  {
    hide Plain, ReadSetting, Written, SettingOf;
    if us != [] {
      OneSetting(us[0]);
      SeenIsRead(Line(Written(us[0]), true));
      WholeWritten(us[0]);
      assert forall i | 0 <= i < |us[1..]| :: us[1..][i] == us[i + 1];
      AppendedReads(us[1..]);
      assert Appended(us)[1..] == Appended(us[1..]);
      assert us == [us[0]] + us[1..];
    }
  }

  lemma TerminatedReads(ls: seq<Line>)
    ensures |Terminated(ls)| == |ls| && Readings(Terminated(ls)) == Readings(ls)
    ensures forall i | 0 <= i < |ls| :: Terminated(ls)[i].content == ls[i].content
  {
    hide ReadSetting;
    if ls != [] {
      var front, last := ls[..|ls| - 1], ls[|ls| - 1];
      assert ls == front + [last];
      ReadingsConcat(front, [last]);
      ReadingsConcat(front, [last.(ended := true)]);
      OneReading(last);
      OneReading(last.(ended := true));
      SameReading(last, last.(ended := true));
    }
  }

  lemma {:induction false} SameContents(a: seq<Line>, b: seq<Line>)
    requires |a| == |b| && forall i | 0 <= i < |a| :: a[i].content == b[i].content
    ensures Readings(a) == Readings(b) && Visible(a) == Visible(b)
  {
    hide ReadSetting;
    if a != [] {
      SameReading(a[0], b[0]);
      assert forall i | 0 <= i < |a[1..]| :: a[1..][i] == a[i + 1] && b[1..][i] == b[i + 1];
      SameContents(a[1..], b[1..]);
    }
  }

  /** What is on the card: the old file if the save failed; otherwise the visible lines of what
      went out, and after them, if all of those are free of zeros, the appended settings. */
  lemma CardReads(us: seq<Setting>, file: string)
    requires AllPlain(us)
    ensures var ls, room := Lines(file), |file| + SLACK;
      var out := LinesInRoom(us, ls, 0, room);
      OnCard(us, file) ==
        if !Succeeds(us, file) then Readings(ls)
        else if ZeroFree(out) then Readings(out) + Missing(us, Entries(ls))
        else Readings(out[..Visible(out)])
  {
    hide LinesInRoom, Missing, Appended, Terminated, Entries, AllPlain, Text, Readings, Lines, InRoom, CString, Proper, Succeeds;
    var ls, room := Lines(file), |file| + SLACK;
    var out, missing := LinesInRoom(us, ls, 0, room), Missing(us, Entries(ls));
    TextOfLines(file);
    OutProper(us, ls, room);
    CutReads(OutLines(us, ls, room));
    MissingPlain(us, Entries(ls));
    AppendedReads(missing);
    TerminatedReads(out);
    JoinedVisible(out, Terminated(out), Appended(missing));
    ReadingsConcat(Terminated(out), Appended(missing));
    EmptyReadings();
    if ZeroFree(out) {
      AllVisible(out);
      assert out[..|out|] == out && Readings(out) + [] == Readings(out);
    }
  }

  lemma EmptyReadings()
    ensures Readings([]) == []
  {}

  /** Lines with a zero hide what follows; lines without show all of it. */
  lemma JoinedVisible(out: seq<Line>, same: seq<Line>, more: seq<Line>)
    requires |same| == |out| && ZeroFree(more) && forall i | 0 <= i < |out| :: same[i].content == out[i].content
    ensures ZeroFree(out) ==> (same + more)[..Visible(same + more)] == same + more
    ensures !ZeroFree(out) ==> Readings((same + more)[..Visible(same + more)]) == Readings(out[..Visible(out)])
  {
    hide ReadSetting, Readings, Visible, ZeroFree;
    SameContents(out, same);
    if ZeroFree(out) {
      SameFree(out, same);
      JoinedFree(same, more);
      AllVisible(same + more);
    } else {
      SameFree(same, out);
      ZeroInside(same, more);
      SameContents(out[..Visible(out)], same[..Visible(out)]);
    }
  }

  lemma SameFree(a: seq<Line>, b: seq<Line>)
    requires |a| == |b| && forall i | 0 <= i < |a| :: a[i].content == b[i].content
    ensures ZeroFree(a) ==> ZeroFree(b)
  {}

  lemma JoinedFree(a: seq<Line>, b: seq<Line>)
    requires ZeroFree(a) && ZeroFree(b)
    ensures ZeroFree(a + b)
  {}

  lemma {:induction false} ZeroInside(a: seq<Line>, b: seq<Line>)
    requires !ZeroFree(a)
    ensures Visible(a + b) == Visible(a) <= |a| && (a + b)[..Visible(a)] == a[..Visible(a)]
  {
    hide ZeroFree;
    NotFree(a);
    if '\0' !in a[0].content {
      ZeroInside(a[1..], b);
      assert (a + b)[1..] == a[1..] + b;
    }
  }

  lemma NotFree(a: seq<Line>)
    requires !ZeroFree(a)
    ensures a != [] && ('\0' !in a[0].content ==> !ZeroFree(a[1..]))
  {
    var i :| 0 <= i < |a| && '\0' in a[i].content;
    if i > 0 {
      assert a[1..][i - 1] == a[i];
    }
  }

  // ---- exactly when a value is read back ------------------------------------------------------------------

  /** A line that a loader takes a value for the key from. */
  ghost predicate Says<T>(l: Line, key: string, parse: string -> Option<T>) {
    ReadSetting(l).Some? && ReadSetting(l).value.key == key && parse(ReadSetting(l).value.value).Some?
  }

  lemma {:induction false} LastSaid<T>(ls: seq<Line>, key: string, parse: string -> Option<T>, i: nat)
    requires i < |ls| && Says(ls[i], key, parse) && forall h | i < h < |ls| :: !Says(ls[h], key, parse)
    ensures Loaded(Readings(ls), key, parse) == parse(ReadSetting(ls[i]).value.value)
    decreases |ls|
  {
    hide ReadSetting;
    var front, last := ls[..|ls| - 1], ls[|ls| - 1];
    assert ls == front + [last];
    ReadingsConcat(front, [last]);
    OneReading(last);
    if i < |ls| - 1 {
      LastSaid(front, key, parse, i);
      assert !Says(ls[|ls| - 1], key, parse);
    }
    LoadedMore(Readings(front), Readings([last]), key, parse);
  }

  lemma {:induction false} NothingSaid<T>(ls: seq<Line>, key: string, parse: string -> Option<T>)
    requires forall h | 0 <= h < |ls| :: !Says(ls[h], key, parse)
    ensures Loaded(Readings(ls), key, parse) == None
    decreases |ls|
  {
    hide ReadSetting;
    if ls != [] {
      var front, last := ls[..|ls| - 1], ls[|ls| - 1];
      assert ls == front + [last];
      ReadingsConcat(front, [last]);
      OneReading(last);
      assert !Says(ls[|ls| - 1], key, parse);
      NothingSaid(front, key, parse);
      LoadedMore(Readings(front), Readings([last]), key, parse);
    }
  }

  /** Appending at most one setting. */
  lemma LoadedMore<T>(es: seq<Setting>, more: seq<Setting>, key: string, parse: string -> Option<T>)
    requires |more| <= 1
    ensures Loaded(es + more, key, parse) ==
      if |more| == 1 && more[0].key == key && parse(more[0].value).Some? then parse(more[0].value) else Loaded(es, key, parse)
  {
    if more == [] {
      assert es + more == es;
    } else {
      assert (es + more)[..|es|] == es;
    }
  }

  lemma {:induction false} LoadedConcat<T>(a: seq<Setting>, b: seq<Setting>, key: string, parse: string -> Option<T>)
    ensures Loaded(a + b, key, parse) == if Loaded(b, key, parse).Some? then Loaded(b, key, parse) else Loaded(a, key, parse)
    decreases |b|
  {
    if b == [] {
      assert a + b == a;
    } else {
      assert (a + b)[..|a + b| - 1] == a + b[..|b| - 1];
      LoadedConcat(a, b[..|b| - 1], key, parse);
    }
  }

  /** Line i is on the card at least in part: every line before it is renewed or free of zeros. */
  ghost predicate Shown(us: seq<Setting>, ls: seq<Line>, room: nat, i: nat)
    requires i <= |ls|
  {
    forall h | 0 <= h < i :: Renews(us, ls, room, h) || '\0' !in ls[h].content
  }

  /** Line i will be taken for the key: renewed for it, or left alone and saying something. */
  ghost predicate Speaks<T>(us: seq<Setting>, ls: seq<Line>, room: nat, key: string, parse: string -> Option<T>, i: nat)
    requires i < |ls|
  {
    if Renews(us, ls, room, i) then SettingOf(ls[i]).value.key == key else Says(ls[i], key, parse)
  }

  /** Line i has the last word on the key among the lines shown. */
  ghost predicate Decides<T>(us: seq<Setting>, ls: seq<Line>, room: nat, key: string, parse: string -> Option<T>, i: nat) {
    && i < |ls| && Shown(us, ls, room, i) && Speaks(us, ls, room, key, parse, i)
    && forall h | i < h < |ls| && Shown(us, ls, room, h) :: !Speaks(us, ls, room, key, parse, h)
  }

  /** Line i is renewed, or says the wanted value already. */
  ghost predicate Agrees<T>(us: seq<Setting>, ls: seq<Line>, room: nat, u: Setting, parse: string -> Option<T>, i: nat)
    requires i < |ls|
  {
    Renews(us, ls, room, i)
    || (ReadSetting(ls[i]).Some? && parse(ReadSetting(ls[i]).value.value) == parse(u.value))
  }

  /** What goes out at line i, in terms of the file. */
  lemma OutSays<T>(us: seq<Setting>, ls: seq<Line>, room: nat, u: Setting, parse: string -> Option<T>, i: nat)
    requires Good(us) && u in us && parse(u.value).Some? && i < |ls|
    ensures var l := LinesInRoom(us, ls, 0, room)[i];
      && (Says(l, u.key, parse) <==> Speaks(us, ls, room, u.key, parse, i))
      && ('\0' !in l.content <==> Renews(us, ls, room, i) || '\0' !in ls[i].content)
      && (Says(l, u.key, parse) ==>
            (parse(ReadSetting(l).value.value) == parse(u.value) <==> Agrees(us, ls, room, u, parse, i)))
  {
    hide SettingOf, ReadSetting, LinesInRoom, Written, Wanted, Text, Distinct, AllPlain, Renews;
    OutReads(us, ls, room, i);
    if Renews(us, ls, room, i) {
      RenewsWanted(us, ls, room, i);
      WantedMember(us, u);
      WantedIsOne(us, SettingOf(ls[i]).value.key);
    }
  }

  lemma RenewsWanted(us: seq<Setting>, ls: seq<Line>, room: nat, i: nat)
    requires i < |ls| && Renews(us, ls, room, i)
    ensures SettingOf(ls[i]).Some? && Wanted(us, SettingOf(ls[i]).value.key).Some?
  {}

  /** A line is visible in what goes out exactly when it is shown. */
  lemma ShownIff<T>(us: seq<Setting>, ls: seq<Line>, room: nat, u: Setting, parse: string -> Option<T>, i: nat)
    requires Good(us) && u in us && parse(u.value).Some? && i <= |ls|
    ensures var out := LinesInRoom(us, ls, 0, room);
      && (Shown(us, ls, room, i) <==> ZeroFree(out[..i]))
      && (i < |ls| ==> (i < Visible(out) <==> Shown(us, ls, room, i)))
  {
    hide LinesInRoom, Renews, Good, Says;
    var out := LinesInRoom(us, ls, 0, room);
    if Shown(us, ls, room, i) {
      forall h | 0 <= h < i ensures '\0' !in out[h].content {
        OutSays(us, ls, room, u, parse, h);
      }
    }
    if ZeroFree(out[..i]) {
      forall h | 0 <= h < i ensures Renews(us, ls, room, h) || '\0' !in ls[h].content {
        OutSays(us, ls, room, u, parse, h);
        assert out[..i][h] == out[h];
      }
    }
    if i < |ls| {
      VisibleIff(out, i);
    }
  }

  /** The last word among the lines on the card. */
  lemma LinesDecide<T>(us: seq<Setting>, ls: seq<Line>, room: nat, u: Setting, parse: string -> Option<T>)
    requires Good(us) && u in us && parse(u.value).Some?
    ensures var out := LinesInRoom(us, ls, 0, room);
      Loaded(Readings(out[..Visible(out)]), u.key, parse) == parse(u.value) <==>
        exists i: nat :: Decides(us, ls, room, u.key, parse, i) && Agrees(us, ls, room, u, parse, i)
  {
    hide LinesInRoom, Renews, Good, Says, Speaks, Agrees, Shown, Readings, Loaded, ReadSetting;
    var out := LinesInRoom(us, ls, 0, room);
    var shown := out[..Visible(out)];
    forall i: nat | i < |ls|
      ensures i < |shown| <==> Shown(us, ls, room, i)
      ensures Says(out[i], u.key, parse) <==> Speaks(us, ls, room, u.key, parse, i)
    {
      ShownIff(us, ls, room, u, parse, i);
      OutSays(us, ls, room, u, parse, i);
    }
    if j: nat :| j < |shown| && Says(shown[j], u.key, parse) {
      var i := LastOne(shown, u.key, parse, j);
      assert shown[i] == out[i];
      assert Decides(us, ls, room, u.key, parse, i);
      LastSaid(shown, u.key, parse, i);
      OutSays(us, ls, room, u, parse, i);
      forall k: nat | Decides(us, ls, room, u.key, parse, k) ensures k == i {
        assert k < |shown| && shown[k] == out[k];
      }
    } else {
      NothingSaid(shown, u.key, parse);
      assert forall i: nat | i < |ls| && Shown(us, ls, room, i) :: shown[i] == out[i];
    }
  }

  lemma {:induction false} LastOne<T>(ls: seq<Line>, key: string, parse: string -> Option<T>, j: nat) returns (i: nat)
    requires j < |ls| && Says(ls[j], key, parse)
    ensures i < |ls| && Says(ls[i], key, parse) && forall h | i < h < |ls| :: !Says(ls[h], key, parse)
    decreases |ls| - j
  {
    hide Says;
    if h: nat :| j < h < |ls| && Says(ls[h], key, parse) {
      i := LastOne(ls, key, parse, h);
    } else {
      i := j;
    }
  }

  /** An updated value is read back after a successful save exactly when it was appended in
      sight, or when the line with the last word was renewed or says it already. A line is not
      renewed if it is longer than the saver looks at or no longer fits; a zero in a line that is
      not renewed ends the file. After a failed save it is read back exactly when the file said
      it already. */
  lemma ReadBackIff<T>(us: seq<Setting>, file: string, u: Setting, parse: string -> Option<T>)
    requires Good(us) && u in us && parse(u.value).Some?
    ensures var ls, room := Lines(file), |file| + SLACK;
      Loaded(OnCard(us, file), u.key, parse) == parse(u.value) <==>
        if Succeeds(us, file) then
          || (!Holds(Entries(ls), u.key) && Shown(us, ls, room, |ls|))
          || exists i: nat :: Decides(us, ls, room, u.key, parse, i) && Agrees(us, ls, room, u, parse, i)
        else exists i: nat :: LastSays(ls, u, parse, i)
  {
    hide LastSays, Decides, Agrees, Shown, Loaded, Entries, Holds, Good, Lines, Succeeds, Readings;
    if Succeeds(us, file) {
      SavedReadBack(us, file, u, parse);
    } else {
      assert OnCard(us, file) == Readings(Lines(file));
      LastWord(Lines(file), u, parse);
    }
  }

  /** Line i of a file that is left alone has the last word on the key and says this value. */
  ghost predicate LastSays<T>(ls: seq<Line>, u: Setting, parse: string -> Option<T>, i: nat) {
    && i < |ls| && Says(ls[i], u.key, parse) && parse(ReadSetting(ls[i]).value.value) == parse(u.value)
    && forall h | i < h < |ls| :: !Says(ls[h], u.key, parse)
  }

  lemma LastWord<T>(ls: seq<Line>, u: Setting, parse: string -> Option<T>)
    requires parse(u.value).Some?
    ensures Loaded(Readings(ls), u.key, parse) == parse(u.value) <==> exists i: nat :: LastSays(ls, u, parse, i)
  {
    hide Says, ReadSetting, Readings, Loaded;
    if j: nat :| j < |ls| && Says(ls[j], u.key, parse) {
      var i := LastOne(ls, u.key, parse, j);
      LastSaid(ls, u.key, parse, i);
      assert LastSays(ls, u, parse, i) <==> Loaded(Readings(ls), u.key, parse) == parse(u.value);
      forall k: nat | LastSays(ls, u, parse, k) ensures k == i {}
    } else {
      NothingSaid(ls, u.key, parse);
    }
  }

  lemma SavedReadBack<T>(us: seq<Setting>, file: string, u: Setting, parse: string -> Option<T>)
    requires Good(us) && u in us && parse(u.value).Some? && Succeeds(us, file)
    ensures var ls, room := Lines(file), |file| + SLACK;
      Loaded(OnCard(us, file), u.key, parse) == parse(u.value) <==>
        || (!Holds(Entries(ls), u.key) && Shown(us, ls, room, |ls|))
        || exists i: nat :: Decides(us, ls, room, u.key, parse, i) && Agrees(us, ls, room, u, parse, i)
  {
    hide LinesInRoom, Decides, Agrees, Shown, Readings, Loaded, Entries, Missing, OnCard, Holds, Distinct, AllPlain, Lines, InRoom, Succeeds;
    var ls, room := Lines(file), |file| + SLACK;
    var out, missing := LinesInRoom(us, ls, 0, room), Missing(us, Entries(ls));
    CardReads(us, file);
    LinesDecide(us, ls, room, u, parse);
    ShownIff(us, ls, room, u, parse, |ls|);
    if Shown(us, ls, room, |ls|) {
      AllVisible(out);
      assert out[..|out|] == out;
      MissingReads(us, Entries(ls), u, parse);
      LoadedConcat(Readings(out), missing, u.key, parse);
    }
  }

  lemma {:induction false} MissingReads<T>(us: seq<Setting>, es: seq<Setting>, u: Setting, parse: string -> Option<T>)
    requires Distinct(us) && u in us && parse(u.value).Some?
    ensures Loaded(Missing(us, es), u.key, parse) == if Holds(es, u.key) then None else parse(u.value)
    decreases |us|
  {
    hide Holds;
    var rest := Missing(us[1..], es);
    var head := if Holds(es, us[0].key) then [] else [us[0]];
    TailDistinct(us);
    LoadedConcat(head, rest, u.key, parse);
    OneLoaded(us[0], u.key, parse);
    if u == us[0] {
      OthersMissing(us[1..], es, u.key, parse);
    } else {
      assert u in us[1..];
      assert us[0].key != u.key;
      MissingReads(us[1..], es, u, parse);
    }
  }

  lemma OneLoaded<T>(s: Setting, key: string, parse: string -> Option<T>)
    ensures Loaded([s], key, parse) == (if s.key == key then parse(s.value) else None) && Loaded([], key, parse) == None
  {
    assert [s][..0] == [];
  }

  lemma {:induction false} OthersMissing<T>(us: seq<Setting>, es: seq<Setting>, key: string, parse: string -> Option<T>)
    requires forall i | 0 <= i < |us| :: us[i].key != key
    ensures Loaded(Missing(us, es), key, parse) == None
    decreases |us|
  {
    hide Holds;
    if us != [] {
      assert forall i | 0 <= i < |us[1..]| :: us[1..][i] == us[i + 1];
      OthersMissing(us[1..], es, key, parse);
      LoadedConcat(if Holds(es, us[0].key) then [] else [us[0]], Missing(us[1..], es), key, parse);
      OneLoaded(us[0], key, parse);
    }
  }

  // ---- the loader that stops at the first line ---------------------------------------------------------------

  /** Taking every text as it is. */
  function Whole(s: string): Option<string> { Some(s) }

  /** Line i has the first word on the key. */
  ghost predicate Opens(us: seq<Setting>, ls: seq<Line>, room: nat, key: string, i: nat) {
    && i < |ls| && Shown(us, ls, room, i) && Speaks(us, ls, room, key, Whole, i)
    && forall h | 0 <= h < i :: !Speaks(us, ls, room, key, Whole, h)
  }

  lemma {:induction false} FirstSaid<T>(ls: seq<Line>, more: seq<Setting>, key: string, parse: string -> Option<T>, i: nat)
    requires i < |ls| && Says(ls[i], key, Whole) && forall h | 0 <= h < i :: !Says(ls[h], key, Whole)
    ensures FirstLoaded(Readings(ls) + more, key, parse) == parse(ReadSetting(ls[i]).value.value)
    decreases |ls|
  {
    hide ReadSetting;
    if i == 0 {
      assert (Readings(ls) + more)[0] == ReadSetting(ls[0]).value;
    } else {
      assert forall h | 0 <= h < |ls[1..]| :: ls[1..][h] == ls[h + 1];
      FirstSaid(ls[1..], more, key, parse, i - 1);
      SkipFirst(ls, more, key, parse);
    }
  }

  lemma SkipFirst<T>(ls: seq<Line>, more: seq<Setting>, key: string, parse: string -> Option<T>)
    requires ls != [] && !Says(ls[0], key, Whole)
    ensures FirstLoaded(Readings(ls) + more, key, parse) == FirstLoaded(Readings(ls[1..]) + more, key, parse)
  {
    hide ReadSetting;
    var all, rest := Readings(ls) + more, Readings(ls[1..]) + more;
    if ReadSetting(ls[0]).Some? {
      assert all == [ReadSetting(ls[0]).value] + rest && all[1..] == rest;
    } else {
      assert all == rest;
    }
  }

  lemma {:induction false} NoneSaid<T>(ls: seq<Line>, more: seq<Setting>, key: string, parse: string -> Option<T>)
    requires forall h | 0 <= h < |ls| :: !Says(ls[h], key, Whole)
    ensures FirstLoaded(Readings(ls) + more, key, parse) == FirstLoaded(more, key, parse)
    decreases |ls|
  {
    hide ReadSetting, Says;
    if ls == [] {
      EmptyReadings();
      assert [] + more == more;
    } else {
      assert forall h | 0 <= h < |ls[1..]| :: ls[1..][h] == ls[h + 1];
      SkipFirst(ls, more, key, parse);
      NoneSaid(ls[1..], more, key, parse);
    }
  }

  lemma OutAgrees<T>(us: seq<Setting>, ls: seq<Line>, room: nat, u: Setting, parse: string -> Option<T>, i: nat)
    requires Good(us) && u in us && parse(u.value).Some? && i < |ls| && Speaks(us, ls, room, u.key, Whole, i)
    ensures var l := LinesInRoom(us, ls, 0, room)[i];
      ReadSetting(l).Some? && (parse(ReadSetting(l).value.value) == parse(u.value) <==> Agrees(us, ls, room, u, parse, i))
  {
    hide SettingOf, ReadSetting, LinesInRoom, Written, Wanted, Text, Distinct, AllPlain, Renews;
    OutReads(us, ls, room, i);
    if Renews(us, ls, room, i) {
      WantedMember(us, u);
    }
  }

  lemma {:induction false} FirstMissing<T>(us: seq<Setting>, es: seq<Setting>, u: Setting, parse: string -> Option<T>)
    requires Distinct(us) && u in us && !Holds(es, u.key)
    ensures FirstLoaded(Missing(us, es), u.key, parse) == parse(u.value)
    decreases |us|
  {
    hide Holds;
    var rest := Missing(us[1..], es);
    TailDistinct(us);
    if u != us[0] {
      assert u in us[1..] && us[0].key != u.key;
      FirstMissing(us[1..], es, u, parse);
      assert Holds(es, us[0].key) || ([us[0]] + rest)[1..] == rest;
      assert [] + rest == rest;
    }
  }

  /** The same for the loader that stops at the first line with the key: after a successful save
      that line must be renewed or say the value already, or there is none and the setting is
      appended in sight; after a failed save it must have said the value before. */
  lemma FirstReadBackIff<T>(us: seq<Setting>, file: string, u: Setting, parse: string -> Option<T>)
    requires Good(us) && u in us && parse(u.value).Some?
    ensures var ls, room := Lines(file), |file| + SLACK;
      FirstLoaded(OnCard(us, file), u.key, parse) == parse(u.value) <==>
        if Succeeds(us, file) then
          || (Shown(us, ls, room, |ls|) && forall i: nat | i < |ls| :: !Speaks(us, ls, room, u.key, Whole, i))
          || exists i: nat :: Opens(us, ls, room, u.key, i) && Agrees(us, ls, room, u, parse, i)
        else exists i: nat :: FirstSays(ls, u, parse, i)
  {
    hide FirstSays, Opens, Agrees, Speaks, Shown, FirstLoaded, Good, Lines, Succeeds, Readings;
    if Succeeds(us, file) {
      SavedFirstReadBack(us, file, u, parse);
    } else {
      assert OnCard(us, file) == Readings(Lines(file));
      FirstWord(Lines(file), u, parse);
    }
  }

  /** Line i of a file that is left alone has the first word on the key and says this value. */
  ghost predicate FirstSays<T>(ls: seq<Line>, u: Setting, parse: string -> Option<T>, i: nat) {
    && i < |ls| && Says(ls[i], u.key, Whole) && parse(ReadSetting(ls[i]).value.value) == parse(u.value)
    && forall h | 0 <= h < i :: !Says(ls[h], u.key, Whole)
  }

  lemma FirstWord<T>(ls: seq<Line>, u: Setting, parse: string -> Option<T>)
    requires parse(u.value).Some?
    ensures FirstLoaded(Readings(ls), u.key, parse) == parse(u.value) <==> exists i: nat :: FirstSays(ls, u, parse, i)
  {
    hide Says, ReadSetting, Readings, FirstLoaded;
    assert Readings(ls) + [] == Readings(ls);
    if j: nat :| j < |ls| && Says(ls[j], u.key, Whole) {
      var i := FirstOne(ls, u.key, j);
      FirstSaid(ls, [], u.key, parse, i);
      assert FirstSays(ls, u, parse, i) <==> FirstLoaded(Readings(ls), u.key, parse) == parse(u.value);
      forall k: nat | FirstSays(ls, u, parse, k) ensures k == i {}
    } else {
      NoneSaid(ls, [], u.key, parse);
      FirstNothing(u.key, parse);
    }
  }

  lemma SavedFirstReadBack<T>(us: seq<Setting>, file: string, u: Setting, parse: string -> Option<T>)
    requires Good(us) && u in us && parse(u.value).Some? && Succeeds(us, file)
    ensures var ls, room := Lines(file), |file| + SLACK;
      FirstLoaded(OnCard(us, file), u.key, parse) == parse(u.value) <==>
        || (Shown(us, ls, room, |ls|) && forall i: nat | i < |ls| :: !Speaks(us, ls, room, u.key, Whole, i))
        || exists i: nat :: Opens(us, ls, room, u.key, i) && Agrees(us, ls, room, u, parse, i)
  {
    hide LinesInRoom, Agrees, Shown, Readings, FirstLoaded, Entries, Missing, OnCard, Holds, Distinct, AllPlain, Lines, InRoom,
      Says, Speaks, ReadSetting, Succeeds;
    var ls, room := Lines(file), |file| + SLACK;
    var out, missing := LinesInRoom(us, ls, 0, room), Missing(us, Entries(ls));
    CardReads(us, file);
    forall i: nat | i < |ls|
      ensures i < Visible(out) <==> Shown(us, ls, room, i)
      ensures Says(out[i], u.key, Whole) <==> Speaks(us, ls, room, u.key, Whole, i)
    {
      ShownIff(us, ls, room, u, Whole, i);
      OutSays(us, ls, room, u, Whole, i);
    }
    ShownIff(us, ls, room, u, parse, |ls|);
    var shown, more := out[..Visible(out)], if Shown(us, ls, room, |ls|) then missing else [];
    if Shown(us, ls, room, |ls|) {
      AllVisible(out);
      assert out[..|out|] == out;
    }
    assert OnCard(us, file) == Readings(shown) + more by {
      assert Readings(shown) + [] == Readings(shown);
    }
    if j: nat :| j < |shown| && Says(shown[j], u.key, Whole) {
      var i := FirstOne(shown, u.key, j);
      assert forall h: nat | h < |shown| :: shown[h] == out[h];
      assert Opens(us, ls, room, u.key, i);
      FirstSaid(shown, more, u.key, parse, i);
      OutAgrees(us, ls, room, u, parse, i);
    } else {
      assert forall i: nat | i < |ls| && Shown(us, ls, room, i) :: shown[i] == out[i];
      NoneSaid(shown, more, u.key, parse);
      FirstNothing(u.key, parse);
      if Shown(us, ls, room, |ls|) {
        NotHeld(ls, u.key, us, room);
        FirstMissing(us, Entries(ls), u, parse);
      }
    }
  }

  lemma FirstNothing<T>(key: string, parse: string -> Option<T>)
    ensures FirstLoaded([], key, parse) == None
  {}

  lemma {:induction false} FirstOne(ls: seq<Line>, key: string, j: nat) returns (i: nat)
    requires j < |ls| && Says(ls[j], key, Whole)
    ensures i < |ls| && Says(ls[i], key, Whole) && forall h | 0 <= h < i :: !Says(ls[h], key, Whole)
    decreases j
  {
    hide Says;
    if h: nat :| h < j && Says(ls[h], key, Whole) {
      i := FirstOne(ls, key, h);
    } else {
      i := j;
    }
  }

  /** A key that no line speaks for is not among the settings the saver sees. */
  lemma {:induction false} NotHeld(ls: seq<Line>, key: string, us: seq<Setting>, room: nat)
    requires forall i: nat | i < |ls| :: !Speaks(us, ls, room, key, Whole, i)
    ensures !Holds(Entries(ls), key)
  {
    hide ReadSetting, SettingOf, Renews;
    forall i | 0 <= i < |ls| ensures SettingOf(ls[i]).Some? ==> SettingOf(ls[i]).value.key != key {
      if SettingOf(ls[i]).Some? {
        SeenIsRead(ls[i]);
        assert !Speaks(us, ls, room, key, Whole, i);
      }
    }
    HeldByLine(ls, key);
  }

  lemma {:induction false} HeldByLine(ls: seq<Line>, key: string)
    requires forall i | 0 <= i < |ls| :: SettingOf(ls[i]).Some? ==> SettingOf(ls[i]).value.key != key
    ensures !Holds(Entries(ls), key)
  {
    hide SettingOf;
    if ls != [] {
      assert forall i | 0 <= i < |ls[1..]| :: ls[1..][i] == ls[i + 1];
      HeldByLine(ls[1..], key);
      var head := match SettingOf(ls[0]) case None => [] case Some(s) => [s];
      forall i | 0 <= i < |Entries(ls)| ensures Entries(ls)[i].key != key {
        if i >= |head| {
          assert Entries(ls)[i] == Entries(ls[1..])[i - |head|];
        }
      }
    }
  }

  // ---- tidy files ----------------------------------------------------------------------------------------------

  /** No zeros, and no line longer than a loader's buffer. */
  ghost predicate Tidy(file: string) {
    '\0' !in file && forall i | 0 <= i < |Lines(file)| :: |Lines(file)[i].content| <= READ_MAX
  }

  lemma {:induction false} LinesOfClean(ls: seq<Line>)
    requires '\0' !in Text(ls)
    ensures forall i | 0 <= i < |ls| :: '\0' !in ls[i].content
  {
    if ls != [] {
      assert forall c | c in Text(ls[1..]) :: c in LineText(ls[0]) + Text(ls[1..]);
      LinesOfClean(ls[1..]);
      assert forall i | 0 < i < |ls| :: ls[i] == ls[1..][i - 1];
      assert forall c | c in ls[0].content :: c in LineText(ls[0]) + Text(ls[1..]);
    }
  }

  lemma {:induction false} ReadAsSeen(ls: seq<Line>)
    requires forall i | 0 <= i < |ls| :: ReadSetting(ls[i]) == SettingOf(ls[i])
    ensures Readings(ls) == Entries(ls)
  {
    hide ReadSetting, SettingOf;
    if ls != [] {
      assert forall i | 0 <= i < |ls[1..]| :: ls[1..][i] == ls[i + 1];
      ReadAsSeen(ls[1..]);
    }
  }

  lemma SavedShort(us: seq<Setting>, l: Line)
    requires AllPlain(us) && '\0' !in l.content && |l.content| <= READ_MAX
    ensures '\0' !in SavedLine(us, l).content
    ensures ReadSetting(SavedLine(us, l)) == SettingOf(SavedLine(us, l)) && ReadSetting(l) == SettingOf(l)
  {
    hide ReadSetting, SettingOf, Written;
    ShortIsSeen(l);
    if SettingOf(l).Some? && Wanted(us, SettingOf(l).value.key).Some? {
      RenewedClean(us, l);
      SeenIsRead(SavedLine(us, l));
    }
  }

  /** After a save that had room for everything the card holds the old settings, renewed where
      asked, and the new ones. */
  lemma TidyCard(us: seq<Setting>, file: string)
    requires Good(us) && Tidy(file) && Roomy(us, file)
    ensures Succeeds(us, file) && Readings(Lines(file)) == Entries(Lines(file))
    ensures OnCard(us, file) == RenewAll(us, Entries(Lines(file))) + Missing(us, Entries(Lines(file)))
  {
    hide SavedLines, Lines, Text, Entries, LinesInRoom, Missing, Appended, InRoom, Saved, Readings, ReadSetting, SettingOf, AllPlain,
      RenewAll, OnCard;
    var ls, room := Lines(file), |file| + SLACK;
    TextOfLines(file);
    LinesOfClean(ls);
    SavedText(us, ls);
    RoomyIff(us, file);
    RoomForAll(us, ls, 0, room);
    var out := SavedLines(us, ls);
    forall i | 0 <= i < |ls|
      ensures '\0' !in out[i].content && ReadSetting(out[i]) == SettingOf(out[i]) && ReadSetting(ls[i]) == SettingOf(ls[i])
    {
      SavedAt(us, ls, i);
      SavedShort(us, ls[i]);
    }
    SavedAt(us, ls, 0);
    CardReads(us, file);
    ReadAsSeen(ls);
    ReadAsSeen(out);
    SavedLinesSay(us, ls);
  }

  lemma SavedAt(us: seq<Setting>, ls: seq<Line>, i: nat)
    ensures |SavedLines(us, ls)| == |ls| && (i < |ls| ==> SavedLines(us, ls)[i] == SavedLine(us, ls[i]))
  {}

  lemma {:induction false} LoadedRenewed<T>(us: seq<Setting>, es: seq<Setting>, key: string, parse: string -> Option<T>)
    requires Wanted(us, key).Some? ==> parse(Wanted(us, key).value.value).Some?
    ensures Loaded(RenewAll(us, es), key, parse) ==
      if Holds(es, key) && Wanted(us, key).Some? then parse(Wanted(us, key).value.value) else Loaded(es, key, parse)
    decreases |es|
  {
    hide Holds;
    if es == [] {
      assert !Holds([], key) by { NothingHeld(key); }
    } else {
      var front, last := es[..|es| - 1], es[|es| - 1];
      assert es == front + [last];
      HoldsMore(front, last, key);
      RenewConcat(us, front, [last]);
      assert RenewAll(us, es)[..|es| - 1] == RenewAll(us, front);
      WantedIsOne(us, last.key);
      LoadedRenewed(us, front, key, parse);
    }
  }

  lemma NothingHeld(key: string)
    ensures !Holds([], key)
  {}

  lemma {:induction false} FirstRenewed<T>(us: seq<Setting>, es: seq<Setting>, more: seq<Setting>, key: string, parse: string -> Option<T>)
    ensures FirstLoaded(RenewAll(us, es) + more, key, parse) ==
      if !Holds(es, key) then FirstLoaded(more, key, parse)
      else if Wanted(us, key).Some? then parse(Wanted(us, key).value.value) else FirstLoaded(es, key, parse)
    decreases |es|
  {
    hide Holds;
    if es == [] {
      NothingHeld(key);
      assert RenewAll(us, es) + more == more;
    } else {
      var all := RenewAll(us, es) + more;
      assert es == [es[0]] + es[1..];
      HoldsCons(es[0], es[1..], key);
      WantedIsOne(us, es[0].key);
      assert all[0] == Renewed(us, es[0]) && all[1..] == RenewAll(us, es[1..]) + more;
      FirstRenewed(us, es[1..], more, key, parse);
    }
  }

  lemma HoldsCons(s: Setting, es: seq<Setting>, key: string)
    ensures Holds([s] + es, key) <==> s.key == key || Holds(es, key)
  {
    var all := [s] + es;
    if s.key == key {
      assert all[0].key == key;
    }
    if Holds(es, key) {
      var i :| 0 <= i < |es| && es[i].key == key;
      assert all[i + 1].key == key;
    }
    if Holds(all, key) && s.key != key {
      var i :| 0 <= i < |all| && all[i].key == key;
      assert es[i - 1].key == key;
    }
  }

  lemma {:induction false} FirstOthers<T>(us: seq<Setting>, es: seq<Setting>, key: string, parse: string -> Option<T>)
    requires forall i | 0 <= i < |us| :: us[i].key != key
    ensures FirstLoaded(Missing(us, es), key, parse) == None
    decreases |us|
  {
    hide Holds;
    if us != [] {
      assert forall i | 0 <= i < |us[1..]| :: us[1..][i] == us[i + 1];
      FirstOthers(us[1..], es, key, parse);
      var rest := Missing(us[1..], es);
      assert ([us[0]] + rest)[1..] == rest && [] + rest == rest;
    }
  }

  lemma {:induction false} FirstNotHeld<T>(es: seq<Setting>, key: string, parse: string -> Option<T>)
    requires !Holds(es, key)
    ensures FirstLoaded(es, key, parse) == None
  {
    hide Holds;
    if es != [] {
      assert es == [es[0]] + es[1..];
      HoldsCons(es[0], es[1..], key);
      FirstNotHeld(es[1..], key, parse);
    }
  }

  /** After a complete save of a tidy file every loader reads every updated key as its new
      value, and every other key as before. */
  lemma FileReadBack<T>(us: seq<Setting>, file: string, key: string, parse: string -> Option<T>)
    requires Good(us) && Tidy(file) && Roomy(us, file)
    requires Wanted(us, key).Some? ==> parse(Wanted(us, key).value.value).Some?
    ensures Succeeds(us, file)
    ensures Loaded(OnCard(us, file), key, parse) ==
      if Wanted(us, key).Some? then parse(Wanted(us, key).value.value) else Loaded(Readings(Lines(file)), key, parse)
    ensures FirstLoaded(OnCard(us, file), key, parse) ==
      if Wanted(us, key).Some? then parse(Wanted(us, key).value.value) else FirstLoaded(Readings(Lines(file)), key, parse)
  {
    hide Lines, Entries, Missing, Readings, AllPlain, Distinct, RenewAll, OnCard, Holds, Wanted, Loaded, FirstLoaded, Tidy, Roomy, Succeeds;
    TidyCard(us, file);
    var es := Entries(Lines(file));
    LoadedRenewed(us, es, key, parse);
    LoadedConcat(RenewAll(us, es), Missing(us, es), key, parse);
    FirstRenewed(us, es, Missing(us, es), key, parse);
    WantedIsOne(us, key);
    if Wanted(us, key).Some? {
      MissingReads(us, es, Wanted(us, key).value, parse);
      if !Holds(es, key) {
        FirstMissing(us, es, Wanted(us, key).value, parse);
      }
    } else {
      OthersMissing(us, es, key, parse);
      FirstOthers(us, es, key, parse);
      if !Holds(es, key) {
        FirstNotHeld(es, key, parse);
      }
    }
  }
}
