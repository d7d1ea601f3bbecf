/** The system settings: what the savers request, what the loaders read back, and the
    files on which a save that reports success loses an update. */
module SystemSettings {
  import opened Ini
  import opened IniReading

  /** What a save is asked to change. */
  datatype Fields = Fields(
    language: Option<string>, ui: Option<nat>, screen: Option<nat>, wifi: Option<nat>,
    brightness: Option<nat>, volume: Option<nat>)

  function Clamped(n: nat, most: nat): nat { if n > most then most else n }

  /** The nearest value in range. */
  lemma ClampedNearest(n: nat, most: nat, m: nat)
    requires m <= most
    ensures Clamped(n, most) <= most
    ensures if n <= most then Clamped(n, most) == n else n - Clamped(n, most) <= n - m
  {}

  const IDLE_MAX: nat := 1440

  function NumberText(n: Option<nat>, most: nat): Option<string> {
    match n case None => None case Some(v) => Some(Decimal(Clamped(v, most)))
  }

  function FlagText(n: Option<nat>): Option<string> {
    match n case None => None case Some(v) => Some(Decimal(if v == 0 then 0 else 1))
  }

  function Add(key: string, value: Option<string>, rest: seq<Setting>): seq<Setting> {
    match value case None => rest case Some(v) => [Setting(key, v)] + rest
  }

  function AvUpdates(f: Fields): seq<Setting> {
    Add("brightness", NumberText(f.brightness, 255), Add("volume", NumberText(f.volume, 100), []))
  }

  function WifiUpdates(f: Fields): seq<Setting> {
    Add("wifi_idle_off_minutes", NumberText(f.wifi, IDLE_MAX), Add("wifi_idle_disconnect", FlagText(f.wifi), AvUpdates(f)))
  }

  /** The settings a save writes, clamped, in the order it appends them. */
  function UpdatesOf(f: Fields): seq<Setting> {
    Add("language_ini", f.language,
        Add("ui_language", FlagText(f.ui), Add("screen_idle_off_minutes", NumberText(f.screen, IDLE_MAX), WifiUpdates(f))))
  }

  lemma AddTotal(key: string, value: Option<string>, rest: seq<Setting>, most: nat)
    requires |key| <= 24 && (value.Some? ==> |value.value| <= most)
    ensures Total(Add(key, value, rest)) <= 24 + most + 2 + Total(rest)
  {
    if value.Some? {
      assert ([Setting(key, value.value)] + rest)[1..] == rest;
    }
  }

  lemma NumbersShort(n: Option<nat>, most: nat)
    requires most < 10000
    ensures NumberText(n, most).Some? ==> |NumberText(n, most).value| <= 4
    ensures FlagText(n).Some? ==> |FlagText(n).value| <= 4
  {
    hide Decimal;
    if n.Some? {
      ShortDecimal(Clamped(n.value, most));
      ShortDecimal(if n.value == 0 then 0 else 1);
    }
  }

  /** With a language file name under 64 characters all seven settings fit the slack together. */
  lemma UpdatesFit(f: Fields)
    requires f.language.Some? ==> |f.language.value| < 64
    ensures Total(UpdatesOf(f)) + 1 < SLACK
  {
    hide Add, NumberText, FlagText, Plain;
    KeysPlain();
    NumbersShort(f.volume, 100);
    NumbersShort(f.brightness, 255);
    NumbersShort(f.wifi, IDLE_MAX);
    NumbersShort(f.screen, IDLE_MAX);
    NumbersShort(f.ui, 1);
    var v := Add("volume", NumberText(f.volume, 100), []);
    AddTotal("volume", NumberText(f.volume, 100), [], 4);
    AddTotal("brightness", NumberText(f.brightness, 255), v, 4);
    var w := Add("wifi_idle_disconnect", FlagText(f.wifi), AvUpdates(f));
    AddTotal("wifi_idle_disconnect", FlagText(f.wifi), AvUpdates(f), 4);
    AddTotal("wifi_idle_off_minutes", NumberText(f.wifi, IDLE_MAX), w, 4);
    var x := Add("screen_idle_off_minutes", NumberText(f.screen, IDLE_MAX), WifiUpdates(f));
    AddTotal("screen_idle_off_minutes", NumberText(f.screen, IDLE_MAX), WifiUpdates(f), 4);
    var y := Add("ui_language", FlagText(f.ui), x);
    AddTotal("ui_language", FlagText(f.ui), x, 4);
    AddTotal("language_ini", f.language, y, 63);
  }

  lemma AddGood(key: string, value: Option<string>, rest: seq<Setting>)
    requires Good(rest) && !Holds(rest, key) && (value.Some? ==> Plain(Setting(key, value.value)))
    ensures Good(Add(key, value, rest))
    ensures forall k :: k != key ==> (Holds(Add(key, value, rest), k) <==> Holds(rest, k))
  {
    if value.Some? {
      var all := Add(key, value, rest);
      forall i | 0 <= i < |all| ensures Plain(all[i]) && (i > 0 ==> all[i] == rest[i - 1]) {}
      forall k | k != key ensures Holds(all, k) <==> Holds(rest, k) {
        if Holds(rest, k) {
          var i :| 0 <= i < |rest| && rest[i].key == k;
          assert all[i + 1].key == k;
        }
      }
    }
  }

  lemma DigitsPlain(key: string, n: nat)
    requires PlainKey(key) && n < 10000
    ensures Plain(Setting(key, Decimal(n)))
  {
    ShortDecimal(n);
    hide Decimal;
    var d := Decimal(n);
    assert forall i | 0 <= i < |d| :: d[i] != '\n' && !IsSpace(d[i]);
  }

  /** The saver's own updates are plain and distinct. */
  lemma UpdatesGood(f: Fields)
    requires f.language.Some? ==> Plain(Setting("language_ini", f.language.value))
    ensures Good(UpdatesOf(f))
  {
    hide Add, Good, Plain, Holds, Decimal, WifiUpdates;
    TextsPlain(f);
    WifiGood(f);
    var x := Add("screen_idle_off_minutes", NumberText(f.screen, IDLE_MAX), WifiUpdates(f));
    AddGood("screen_idle_off_minutes", NumberText(f.screen, IDLE_MAX), WifiUpdates(f));
    AddGood("ui_language", FlagText(f.ui), x);
    AddGood("language_ini", f.language, Add("ui_language", FlagText(f.ui), x));
  }

  lemma AvGood(f: Fields)
    ensures Good(AvUpdates(f))
    ensures forall k :: k != "volume" && k != "brightness" ==> !Holds(AvUpdates(f), k)
  {
    hide Add, Good, Plain, Holds, Decimal;
    TextsPlain(f);
    NoneHeld();
    AddGood("volume", NumberText(f.volume, 100), []);
    AddGood("brightness", NumberText(f.brightness, 255), Add("volume", NumberText(f.volume, 100), []));
  }

  lemma WifiGood(f: Fields)
    ensures Good(WifiUpdates(f))
    ensures !Holds(WifiUpdates(f), "screen_idle_off_minutes") && !Holds(WifiUpdates(f), "ui_language") && !Holds(WifiUpdates(f), "language_ini")
  {
    hide Add, Good, Plain, Holds, Decimal, AvUpdates;
    TextsPlain(f);
    AvGood(f);
    AddGood("wifi_idle_disconnect", FlagText(f.wifi), AvUpdates(f));
    AddGood("wifi_idle_off_minutes", NumberText(f.wifi, IDLE_MAX), Add("wifi_idle_disconnect", FlagText(f.wifi), AvUpdates(f)));
  }

  lemma NoneHeld()
    ensures Good([]) && forall k :: !Holds([], k)
  {}

  ghost predicate PlainKey(key: string) { |key| <= 24 && Plain(Setting(key, "")) }

  lemma KeysPlain()
    ensures PlainKey("volume")
    ensures PlainKey("brightness")
    ensures PlainKey("wifi_idle_disconnect")
    ensures PlainKey("wifi_idle_off_minutes")
    ensures PlainKey("screen_idle_off_minutes")
    ensures PlainKey("ui_language")
    ensures PlainKey("language_ini")
  {
    hide PlainKey;
    VolumeKey();
    BrightnessKey();
    DisconnectKey();
    WifiKey();
    ScreenKey();
    UiKey();
    LanguageKey();
  }

  /** Keys of small letters and underscores are plain. */
  predicate Wordlike(key: string) { forall i | 0 <= i < |key| :: 'a' <= key[i] <= 'z' || key[i] == '_' }

  lemma WordPlain(key: string)
    requires 0 < |key| <= 24 && Wordlike(key)
    ensures PlainKey(key)
  {}

  lemma VolumeKey()
    ensures PlainKey("volume")
  {
    hide PlainKey;
    WordPlain("volume");
  }

  lemma BrightnessKey()
    ensures PlainKey("brightness")
  {
    hide PlainKey;
    WordPlain("brightness");
  }

  lemma DisconnectKey()
    ensures PlainKey("wifi_idle_disconnect")
  {
    hide PlainKey;
    WordPlain("wifi_idle_disconnect");
  }

  lemma WifiKey()
    ensures PlainKey("wifi_idle_off_minutes")
  {
    hide PlainKey;
    WordPlain("wifi_idle_off_minutes");
  }

  lemma ScreenKey()
    ensures PlainKey("screen_idle_off_minutes")
  {
    hide PlainKey;
    WordPlain("screen_idle_off_minutes");
  }

  lemma UiKey()
    ensures PlainKey("ui_language")
  {
    hide PlainKey;
    WordPlain("ui_language");
  }

  lemma LanguageKey()
    ensures PlainKey("language_ini")
  {
    hide PlainKey;
    WordPlain("language_ini");
  }

  lemma TextsPlain(f: Fields)
    ensures NumberText(f.volume, 100).Some? ==> Plain(Setting("volume", NumberText(f.volume, 100).value))
    ensures NumberText(f.brightness, 255).Some? ==> Plain(Setting("brightness", NumberText(f.brightness, 255).value))
    ensures FlagText(f.wifi).Some? ==> Plain(Setting("wifi_idle_disconnect", FlagText(f.wifi).value))
    ensures NumberText(f.wifi, IDLE_MAX).Some? ==> Plain(Setting("wifi_idle_off_minutes", NumberText(f.wifi, IDLE_MAX).value))
    ensures NumberText(f.screen, IDLE_MAX).Some? ==> Plain(Setting("screen_idle_off_minutes", NumberText(f.screen, IDLE_MAX).value))
    ensures FlagText(f.ui).Some? ==> Plain(Setting("ui_language", FlagText(f.ui).value))
  {
    hide Plain, PlainKey, Decimal;
    KeysPlain();
    if f.volume.Some? { DigitsPlain("volume", Clamped(f.volume.value, 100)); }
    if f.brightness.Some? { DigitsPlain("brightness", Clamped(f.brightness.value, 255)); }
    if f.wifi.Some? {
      DigitsPlain("wifi_idle_disconnect", if f.wifi.value == 0 then 0 else 1);
      DigitsPlain("wifi_idle_off_minutes", Clamped(f.wifi.value, IDLE_MAX));
    }
    if f.screen.Some? { DigitsPlain("screen_idle_off_minutes", Clamped(f.screen.value, IDLE_MAX)); }
    if f.ui.Some? { DigitsPlain("ui_language", if f.ui.value == 0 then 0 else 1); }
  }

  lemma AddHas(key: string, value: Option<string>, rest: seq<Setting>)
    ensures value.Some? ==> Setting(key, value.value) in Add(key, value, rest)
    ensures forall s | s in rest :: s in Add(key, value, rest)
  {}

  /** Every requested setting is among the updates. */
  lemma UpdatesHave(f: Fields)
    ensures f.language.Some? ==> Setting("language_ini", f.language.value) in UpdatesOf(f)
    ensures f.ui.Some? ==> Setting("ui_language", FlagText(f.ui).value) in UpdatesOf(f)
    ensures f.screen.Some? ==> Setting("screen_idle_off_minutes", NumberText(f.screen, IDLE_MAX).value) in UpdatesOf(f)
    ensures f.wifi.Some? ==>
      && Setting("wifi_idle_off_minutes", NumberText(f.wifi, IDLE_MAX).value) in UpdatesOf(f)
      && Setting("wifi_idle_disconnect", FlagText(f.wifi).value) in UpdatesOf(f)
    ensures f.brightness.Some? ==> Setting("brightness", NumberText(f.brightness, 255).value) in UpdatesOf(f)
    ensures f.volume.Some? ==> Setting("volume", NumberText(f.volume, 100).value) in UpdatesOf(f)
  {
    hide Add;
    var v := Add("volume", NumberText(f.volume, 100), []);
    AddHas("volume", NumberText(f.volume, 100), []);
    AddHas("brightness", NumberText(f.brightness, 255), v);
    var w := Add("wifi_idle_disconnect", FlagText(f.wifi), AvUpdates(f));
    AddHas("wifi_idle_disconnect", FlagText(f.wifi), AvUpdates(f));
    AddHas("wifi_idle_off_minutes", NumberText(f.wifi, IDLE_MAX), w);
    var x := Add("screen_idle_off_minutes", NumberText(f.screen, IDLE_MAX), WifiUpdates(f));
    AddHas("screen_idle_off_minutes", NumberText(f.screen, IDLE_MAX), WifiUpdates(f));
    AddHas("ui_language", FlagText(f.ui), x);
    AddHas("language_ini", f.language, Add("ui_language", FlagText(f.ui), x));
  }

  // ---- the savers' requests -----------------------------------------------------------------------------------

  /** Screen and Wi-Fi timeouts are saved together. */
  function IdleRequest(screen: nat, wifi: nat): Fields { Fields(None, None, Some(screen), Some(wifi), None, None) }

  /** So are brightness and volume. */
  function AvRequest(brightness: nat, volume: nat): Fields { Fields(None, None, None, None, Some(brightness), Some(volume)) }

  /** A language file name fits its line and the slack. */
  ghost predicate Sendable(f: Fields) {
    f.language.Some? ==> Plain(Setting("language_ini", f.language.value)) && |f.language.value| < 64
  }

  // ---- read-back -----------------------------------------------------------------------------------------------

  /** A number parser that takes decimals for what they are. */
  ghost predicate ReadsDecimals(parse: string -> Option<nat>) {
    forall n: nat | n <= 0xffff :: parse(Decimal(n)) == Some(n)
  }

  /** There is one: digits only. */
  function ParseDigits(s: string): Option<nat> {
    if s != "" && forall i | 0 <= i < |s| :: '0' <= s[i] <= '9' then Some(Number(s)) else None
  }

  lemma DigitsAreDecimals()
    ensures ReadsDecimals(ParseDigits)
  {
    forall n: nat | n <= 0xffff ensures ParseDigits(Decimal(n)) == Some(n) {
      DecimalReads(n);
    }
  }

  /** One requested number, from the request through the card to the loaders. */
  lemma NumberReadBack(us: seq<Setting>, file: string, key: string, n: nat, parse: string -> Option<nat>)
    requires Good(us) && Tidy(file) && Roomy(us, file) && Setting(key, Decimal(n)) in us
    requires ReadsDecimals(parse) && n <= 0xffff
    ensures Loaded(OnCard(us, file), key, parse) == FirstLoaded(OnCard(us, file), key, parse) == Some(n)
  {
    hide AllPlain, Distinct, Decimal, Wanted, Loaded, FirstLoaded, OnCard, Tidy, Roomy;
    WantedMember(us, Setting(key, Decimal(n)));
    FileReadBack(us, file, key, parse);
  }

  /** After a system save of a tidy file that repeats no updated key, the save succeeds and the
      loaders read back every requested value, clamped. */
  lemma SettingsReadBack(f: Fields, file: string, parse: string -> Option<nat>)
    requires Sendable(f) && ReadsDecimals(parse)
    requires Tidy(file) && OnceEach(UpdatesOf(f), Entries(Lines(file)))
    ensures Succeeds(UpdatesOf(f), file)
    ensures var es := OnCard(UpdatesOf(f), file);
      && (f.language.Some? ==> Loaded(es, "language_ini", Whole) == f.language)
      && (f.ui.Some? ==> FirstLoaded(es, "ui_language", parse) == Some(if f.ui.value == 0 then 0 else 1))
      && (f.screen.Some? ==> Loaded(es, "screen_idle_off_minutes", parse) == Some(Clamped(f.screen.value, IDLE_MAX)))
      && (f.wifi.Some? ==> Loaded(es, "wifi_idle_off_minutes", parse) == Some(Clamped(f.wifi.value, IDLE_MAX)))
      && (f.wifi.Some? ==> Loaded(es, "wifi_idle_disconnect", parse) == Some(if f.wifi.value == 0 then 0 else 1))
      && (f.brightness.Some? ==> Loaded(es, "brightness", parse) == Some(Clamped(f.brightness.value, 255)))
      && (f.volume.Some? ==> Loaded(es, "volume", parse) == Some(Clamped(f.volume.value, 100)))
  {
    hide UpdatesOf, Good, Entries, Lines, Roomy, OnceEach, Plain, Decimal, Loaded, FirstLoaded, OnCard, Tidy, ReadsDecimals, Succeeds;
    var us := UpdatesOf(f);
    RoomForRequest(f, file);
    TidyCard(us, file);
    UpdatesHave(f);
    if f.language.Some? { LanguageReadBack(us, file, f.language.value); }
    if f.ui.Some? { NumberReadBack(us, file, "ui_language", if f.ui.value == 0 then 0 else 1, parse); }
    if f.screen.Some? { NumberReadBack(us, file, "screen_idle_off_minutes", Clamped(f.screen.value, IDLE_MAX), parse); }
    if f.wifi.Some? {
      NumberReadBack(us, file, "wifi_idle_off_minutes", Clamped(f.wifi.value, IDLE_MAX), parse);
      NumberReadBack(us, file, "wifi_idle_disconnect", if f.wifi.value == 0 then 0 else 1, parse);
    }
    if f.brightness.Some? { NumberReadBack(us, file, "brightness", Clamped(f.brightness.value, 255), parse); }
    if f.volume.Some? { NumberReadBack(us, file, "volume", Clamped(f.volume.value, 100), parse); }
  }

  lemma LanguageReadBack(us: seq<Setting>, file: string, name: string)
    requires Good(us) && Tidy(file) && Roomy(us, file) && Setting("language_ini", name) in us
    ensures Loaded(OnCard(us, file), "language_ini", Whole) == Some(name)
  {
    hide AllPlain, Distinct, Wanted, Loaded, FirstLoaded, OnCard, Tidy, Roomy;
    WantedMember(us, Setting("language_ini", name));
    FileReadBack(us, file, "language_ini", Whole);
  }

  lemma RoomForRequest(f: Fields, file: string)
    requires Sendable(f) && OnceEach(UpdatesOf(f), Entries(Lines(file)))
    ensures Good(UpdatesOf(f)) && Roomy(UpdatesOf(f), file)
  {
    UpdatesGood(f);
    UpdatesFit(f);
    hide UpdatesOf, Entries, Lines, Roomy, OnceEach;
    SlackSuffices(UpdatesOf(f), file);
  }

  // ---- without the first condition: a zero -------------------------------------------------------------------

  /** A file that begins with a zero is left empty by every save that succeeds. */
  lemma ZeroErases(us: seq<Setting>, file: string)
    requires file != "" && file[0] == '\0'
    ensures CString(InRoom(us, Lines(file), |file| + SLACK)) == ""
    ensures Succeeds(us, file) ==> OnCard(us, file) == []
  {
    hide LineText, Entries, Missing, Appended, Lines, SettingOf, LinesInRoom, Text, InRoom, CString, Readings, Succeeds;
    var ls, room := Lines(file), |file| + SLACK;
    StartsLine(file);
    var l := ls[0];
    ZeroUnseen(l);
    assert ls == [l] + ls[1..];
    RoomHead(us, l, ls[1..], 0, room);
    StartsText(l);
    InRoomStart(us, ls, room);
    CutAt(InRoom(us, ls, room), "");
    NothingRead();
  }

  lemma InRoomStart(us: seq<Setting>, ls: seq<Line>, room: nat)
    ensures var t := Text(LinesInRoom(us, ls, 0, room)); t != "" ==> InRoom(us, ls, room) != "" && InRoom(us, ls, room)[0] == t[0]
  {
    hide Text, LinesInRoom, Missing, Entries, Appended;
    ClosedStart(Text(LinesInRoom(us, ls, 0, room)));
  }

  lemma NothingRead()
    ensures Readings(Lines("")) == []
  {}

  lemma StartsLine(file: string)
    requires file != "" && file[0] == '\0'
    ensures Lines(file) != [] && Lines(file)[0].content != "" && Lines(file)[0].content[0] == '\0'
  {}

  lemma StartsText(l: Line)
    requires l.content != ""
    ensures LineText(l) != "" && LineText(l)[0] == l.content[0]
  {}

  lemma ClosedStart(t: string)
    ensures t != "" ==> Closed(t) != "" && Closed(t)[0] == t[0]
  {}

  lemma ZeroUnseen(l: Line)
    requires l.content != "" && l.content[0] == '\0'
    ensures SettingOf(l) == None
  {
    hide Split;
    StrippedTail(l.content);
    CutAt(Stripped(l.content), "");
    EmptySplit();
  }

  /** The shortest such file: every request the savers can make of it reports success, and
      afterwards no loader finds anything. */
  lemma ZeroUpdateLost(f: Fields)
    requires Sendable(f)
    ensures Succeeds(UpdatesOf(f), "\0") && OnCard(UpdatesOf(f), "\0") == []
  {
    hide UpdatesOf, OnCard, Succeeds, Roomy, InRoom;
    ZeroErases(UpdatesOf(f), "\0");
    OnlyZero();
    RoomForRequest(f, "\0");
    RoomyMeansSuccess(UpdatesOf(f), "\0");
  }

  lemma OnlyZero()
    ensures Entries(Lines("\0")) == []
  {
    hide SettingOf;
    assert Lines("\0") == [Line("\0", false)];
    ZeroUnseen(Line("\0", false));
    assert Lines("\0")[1..] == [];
  }

  lemma RoomyMeansSuccess(us: seq<Setting>, file: string)
    requires AllPlain(us) && Roomy(us, file)
    ensures Succeeds(us, file)
  {
    hide AllPlain, Roomy, InRoom, Lines;
    RoomyIff(us, file);
  }

  // ---- without the second condition: a long line -----------------------------------------------------------------

  function Spaces(n: nat): (s: string)
    ensures |s| == n && forall i | 0 <= i < n :: s[i] == ' '
  {
    seq(n, i => ' ')
  }

  /** A setting followed by so many spaces that the saver does not look at its line. */
  function LongLine(s: Setting, n: nat): Line { Line(Written(s) + Spaces(n), true) }

  /** The saver does not see it, the loaders do. */
  lemma LongLineSeen(s: Setting, n: nat)
    requires Plain(s) && n >= LINE_MAX
    ensures SettingOf(LongLine(s, n)) == None && ReadSetting(LongLine(s, n)) == Some(s)
    ensures '\0' !in LongLine(s, n).content && '\n' !in LongLine(s, n).content
  {
    hide Split, Plain, Written;
    var c := LongLine(s, n).content;
    WholeWritten(s);
    PlainLine(s);
    PlainShort(s);
    NotCut(c);
    Unstripped(c);
    var k := READ_MAX - |Written(s)|;
    assert Head(c) == Written(s) + Spaces(k);
    if k == 0 {
      assert Written(s) + Spaces(0) == Written(s);
      SplitWritten(s);
    } else {
      Unstripped(Head(c));
      SplitPadded(s, k);
    }
  }

  lemma PlainShort(s: Setting)
    requires Plain(s)
    ensures 0 < |Written(s)| <= READ_MAX
  {}

  lemma Unstripped(s: string)
    requires s != "" && s[|s| - 1] != '\r'
    ensures Stripped(s) == s
  {}

  lemma SplitPadded(s: Setting, n: nat)
    requires Plain(s)
    ensures Split(Written(s) + Spaces(n)) == Some(s)
  {
    hide Trim;
    var w := Written(s);
    LastOf(s);
    TrimPadded(w, n);
    SplitWritten(s);
    assert WithoutMark(w + Spaces(n)) == w + Spaces(n) && WithoutMark(w) == w by { FirstPlain(s); }
    TrimStays(w);
  }

  lemma FirstPlain(s: Setting)
    requires Plain(s)
    ensures Written(s)[0] != '\U{00EF}'
  {}

  lemma {:induction false} TrimPadded(w: string, n: nat)
    requires w != "" && !IsSpace(w[0]) && !IsSpace(w[|w| - 1])
    ensures Trim(w + Spaces(n)) == w
  {
    if n == 0 {
      assert w + Spaces(0) == w;
    } else {
      assert (w + Spaces(n))[..|w| + n - 1] == w + Spaces(n - 1);
      TrimPadded(w, n - 1);
    }
  }

  /** A key on a short line and again on a long one: the save renews the first, reports
      success, and the loaders still read the second. */
  lemma LongLineKept<T>(us: seq<Setting>, u: Setting, old_: Setting, stale: Setting, n: nat, file: string, parse: string -> Option<T>)
    requires Good(us) && u in us && Total(us) + 1 < SLACK && n >= LINE_MAX
    requires Plain(old_) && Plain(stale) && old_.key == stale.key == u.key && parse(stale.value).Some?
    requires file == Text([Line(Written(old_), true), LongLine(stale, n)])
    ensures OnceEach(us, Entries(Lines(file))) && Succeeds(us, file)
    ensures Loaded(OnCard(us, file), u.key, parse) == parse(stale.value)
  {
    hide Written, Plain, SettingOf, ReadSetting, LongLine, Loaded, OnCard, AllPlain, Distinct, Roomy, InRoom, Lines, Text, Missing, Total,
      LinesInRoom, SavedLine, Succeeds;
    var ls := [Line(Written(old_), true), LongLine(stale, n)];
    OneSetting(old_);
    WholeWritten(old_);
    PlainLine(old_);
    LongLineSeen(stale, n);
    LongEnded(stale, n);
    LinesOfText(ls);
    TwoEntries(ls, old_);
    SlackSuffices(us, file);
    RoomyMeansSuccess(us, file);
    SavedText(us, ls);
    RoomWhole(us, file);
    var out := SavedLines(us, ls);
    SavedAt(us, ls, 0);
    SavedAt(us, ls, 1);
    SavedLineSame(us, ls[1]);
    WantedMember(us, u);
    RenewedClean(us, ls[0]);
    CardReads(us, file);
    MissingReadsNothing(us, old_, u);
    NoneLoaded(Missing(us, [old_]), u.key, parse);
    LoadedConcat(Readings(out), Missing(us, [old_]), u.key, parse);
    LastSaid(out, u.key, parse, 1);
  }

  lemma LongEnded(s: Setting, n: nat)
    ensures LongLine(s, n).ended
  {}

  lemma TwoEntries(ls: seq<Line>, s: Setting)
    requires |ls| == 2 && SettingOf(ls[0]) == Some(s) && SettingOf(ls[1]) == None
    ensures Entries(ls) == [s]
  {
    hide SettingOf;
    assert ls[1..][0] == ls[1] && ls[1..][1..] == [];
    assert Entries(ls[1..]) == [] + Entries([]);
  }

  lemma SavedLineSame(us: seq<Setting>, l: Line)
    requires SettingOf(l) == None
    ensures SavedLine(us, l) == l
  {}

  /** With room for the complete text every line goes out renewed. */
  lemma RoomWhole(us: seq<Setting>, file: string)
    requires AllPlain(us) && Roomy(us, file)
    ensures LinesInRoom(us, Lines(file), 0, |file| + SLACK) == SavedLines(us, Lines(file))
  {
    hide AllPlain, Lines, Text, Saved, SavedLines, LinesInRoom, Missing, Appended;
    TextOfLines(file);
    SavedText(us, Lines(file));
    RoomForAll(us, Lines(file), 0, |file| + SLACK);
  }

  lemma MissingReadsNothing(us: seq<Setting>, s: Setting, u: Setting)
    requires Distinct(us) && u in us && s.key == u.key
    ensures forall i | 0 <= i < |Missing(us, [s])| :: Missing(us, [s])[i].key != u.key
  {
    assert [s][0].key == u.key;
    MissingOthers(us, [s], u.key);
  }

  lemma {:induction false} NoneLoaded<T>(es: seq<Setting>, key: string, parse: string -> Option<T>)
    requires forall i | 0 <= i < |es| :: es[i].key != key
    ensures Loaded(es, key, parse) == None
    decreases |es|
  {
    if es != [] {
      NoneLoaded(es[..|es| - 1], key, parse);
    }
  }

  lemma {:induction false} MissingOthers(us: seq<Setting>, es: seq<Setting>, key: string)
    requires Holds(es, key)
    ensures forall i | 0 <= i < |Missing(us, es)| :: Missing(us, es)[i].key != key
  {
    hide Holds;
    if us != [] {
      MissingOthers(us[1..], es, key);
      assert forall i | 1 <= i < |[us[0]] + Missing(us[1..], es)| ::
        ([us[0]] + Missing(us[1..], es))[i] == Missing(us[1..], es)[i - 1];
    }
  }

  /** As the savers can meet it: volume 10 on a short line, 50 on a long one, saved as 100. */
  lemma VolumeUpdateLost(brightness: nat, file: string)
    requires file == Text([Line(Written(Setting("volume", "10")), true), LongLine(Setting("volume", "50"), 200)])
    ensures OnceEach(UpdatesOf(AvRequest(brightness, 100)), Entries(Lines(file)))
    ensures Succeeds(UpdatesOf(AvRequest(brightness, 100)), file)
    ensures Loaded(OnCard(UpdatesOf(AvRequest(brightness, 100)), file), "volume", ParseDigits) == ParseDigits("50") != Some(100)
  {
    hide Text, Lines, Entries, OnCard, Loaded, Total, Written, LongLine, Good, Succeeds, OnceEach, Decimal, Number;
    var f := AvRequest(brightness, 100);
    UpdatesGood(f);
    UpdatesFit(f);
    UpdatesHave(f);
    VolumePlain();
    ParsesFifty();
    LongLineKept(UpdatesOf(f), Setting("volume", NumberText(f.volume, 100).value), Setting("volume", "10"), Setting("volume", "50"), 200,
                 file, ParseDigits);
  }

  lemma VolumePlain()
    ensures Plain(Setting("volume", "10")) && Plain(Setting("volume", "50"))
  {
    VolumeKey();
  }

  lemma ParsesFifty()
    ensures ParseDigits("50") == Some(50)
  {
    assert "50"[..1] == "5" && "5"[..0] == "";
  }

  // ---- without the third condition: a repeated key ------------------------------------------------------------------

  function Repeat(l: Line, n: nat): (r: seq<Line>)
    ensures |r| == n && forall i | 0 <= i < n :: r[i] == l
  {
    if n == 0 then [] else [l] + Repeat(l, n - 1)
  }

  lemma {:induction false} RepeatLength(l: Line, n: nat)
    ensures |Text(Repeat(l, n))| == n * |LineText(l)|
  {
    hide LineText;
    if n > 0 {
      TextCons(l, Repeat(l, n - 1));
      RepeatLength(l, n - 1);
      assert n * |LineText(l)| == |LineText(l)| + (n - 1) * |LineText(l)|;
    }
  }

  /** Of k equal lines left to renew, all but the last still fit. */
  lemma {:induction false} AllButLast(us: seq<Setting>, l: Line, u: Setting, k: nat, used: nat, room: nat)
    requires k > 0 && SettingOf(l).Some? && Wanted(us, SettingOf(l).value.key) == Some(u)
    requires |LineText(SavedLine(us, l))| == |Written(u)| + 1
    requires used + (k - 1) * (|Written(u)| + 1) + |Written(u)| >= room
    requires k >= 2 ==> used + (k - 2) * (|Written(u)| + 1) + |Written(u)| < room
    ensures LinesInRoom(us, Repeat(l, k), used, room) == Repeat(SavedLine(us, l), k - 1) + [l]
    decreases k
  {
    hide SettingOf, SavedLine, LineText, Wanted, Written, LineInRoom, LinesInRoom;
    var b := |Written(u)|;
    OneMore(k, b);
    LineFits(us, l, u, used, room);
    assert Repeat(l, k) == [l] + Repeat(l, k - 1);
    RoomHead(us, l, Repeat(l, k - 1), used, room);
    if k == 1 {
      NoLinesOut(us, used + |LineText(l)|, room);
    } else {
      AllButLast(us, l, u, k - 1, used + b + 1, room);
      assert Repeat(SavedLine(us, l), k - 1) == [SavedLine(us, l)] + Repeat(SavedLine(us, l), k - 2);
    }
  }

  lemma OneMore(k: nat, b: nat)
    requires k > 0
    ensures k == 1 ==> (k - 1) * (b + 1) == 0
    ensures k >= 2 ==> (k - 1) * (b + 1) == (k - 2) * (b + 1) + (b + 1) && (k - 2) * (b + 1) >= 0
    ensures k >= 3 ==> (k - 2) * (b + 1) == (k - 3) * (b + 1) + (b + 1)
  {}

  lemma LineFits(us: seq<Setting>, l: Line, u: Setting, used: nat, room: nat)
    requires SettingOf(l).Some? && Wanted(us, SettingOf(l).value.key) == Some(u)
    ensures LineInRoom(us, l, used, room) == if used + |Written(u)| < room then SavedLine(us, l) else l
  {
    hide SettingOf, SavedLine, Wanted, Written;
  }

  lemma NoLinesOut(us: seq<Setting>, used: nat, room: nat)
    ensures LinesInRoom(us, [], used, room) == []
  {}

  lemma {:induction false} RoomConcat(us: seq<Setting>, a: seq<Line>, b: seq<Line>, used: nat, room: nat)
    ensures LinesInRoom(us, a + b, used, room) ==
      LinesInRoom(us, a, used, room) + LinesInRoom(us, b, used + |Text(LinesInRoom(us, a, used, room))|, room)
    decreases |a|
  {
    hide LineInRoom, LineText, Text;
    if a == [] {
      assert a + b == b;
      NoText([]);
    } else {
      var l := LineInRoom(us, a[0], used, room);
      assert (a + b)[1..] == a[1..] + b;
      RoomConcat(us, a[1..], b, used + |LineText(l)|, room);
      TextCons(l, LinesInRoom(us, a[1..], used + |LineText(l)|, room));
    }
  }

  /** A file that ends with one setting on n lines, behind lines that hold the other keys. Saving
      makes the lines before grow by some amount, and each of the n by d. Where the slack runs
      out at the last of the n lines, the save succeeds and the loaders still read the old value. */
  lemma UpdateLost<T>(us: seq<Setting>, before: seq<Line>, u: Setting, was: Setting, n: nat, file: string, parse: string -> Option<T>)
    requires Good(us) && u in us && Plain(was) && u.key == was.key && n >= 2 && parse(was.value).Some?
    requires Proper(before) && Complete(before) && Missing(us, Entries(before) + [was]) == []
    requires file == Text(before + Repeat(Line(Written(was), true), n))
    requires var grown, d := |Text(SavedLines(us, before))| - |Text(before)|, |Written(u)| - |Written(was)|;
      grown + (n - 1) * d < SLACK < grown + n * d
    ensures Succeeds(us, file) && Loaded(OnCard(us, file), u.key, parse) == parse(was.value)
  {
    hide Plain, Written, Text, Lines, LinesInRoom, Entries, Repeat, Loaded, Missing, SettingOf, ReadSetting, SavedLine, LineText, Proper,
      AllPlain, Distinct, Complete, OnCard, SavedLines, InRoom, Readings;
    var l, l' := Line(Written(was), true), Line(Written(u), true);
    var ls, room := before + Repeat(l, n), |file| + SLACK;
    RepeatedFile(before, was, n);
    RepeatedKeys(us, before, was, n);
    RenewedLine(us, u, was);
    RepeatLength(l, n);
    RepeatLength(l', n - 1);
    TextConcat(before, Repeat(l, n));
    RunsOut(n, |Written(was)|, |Written(u)|, |Text(before)|, |Text(SavedLines(us, before))|);
    RoomForAll(us, before, 0, room);
    RoomConcat(us, before, Repeat(l, n), 0, room);
    AllButLast(us, l, u, n, |Text(SavedLines(us, before))|, room);
    var front := SavedLines(us, before) + Repeat(l', n - 1);
    var out := front + [l];
    assert SavedLines(us, before) + (Repeat(l', n - 1) + [l]) == out;
    OneText(l);
    TextConcat(SavedLines(us, before), Repeat(l', n - 1));
    TextConcat(front, [l]);
    assert InRoom(us, ls, room) == Text(out) by { NothingAppended(us, ls, room); }
    OutClean(us, before, u, was, n);
    CardReads(us, file);
    ReadsWas(out, was, u.key, parse);
    assert Readings(out) + [] == Readings(out);
  }

  /** All lines are ended and free of zeros. */
  ghost predicate Complete(ls: seq<Line>) { forall i | 0 <= i < |ls| :: ls[i].ended && '\0' !in ls[i].content }

  lemma NothingAppended(us: seq<Setting>, ls: seq<Line>, room: nat)
    ensures Missing(us, Entries(ls)) == [] ==> InRoom(us, ls, room) == Text(LinesInRoom(us, ls, 0, room))
  {}

  lemma RepeatedFile(before: seq<Line>, was: Setting, n: nat)
    requires Proper(before) && Complete(before) && Plain(was)
    ensures var ls := before + Repeat(Line(Written(was), true), n); Proper(ls) && Lines(Text(ls)) == ls
  {
    hide Plain, Written, Lines, Text;
    PlainLine(was);
    var ls := before + Repeat(Line(Written(was), true), n);
    forall i | 0 <= i < |ls| ensures '\n' !in ls[i].content && ls[i].ended {
      assert i < |before| ==> ls[i] == before[i];
    }
    LinesOfText(ls);
  }

  lemma RepeatedKeys(us: seq<Setting>, before: seq<Line>, was: Setting, n: nat)
    requires Plain(was) && n > 0 && Missing(us, Entries(before) + [was]) == []
    ensures Missing(us, Entries(before + Repeat(Line(Written(was), true), n))) == []
  {
    hide Plain, Written, SettingOf;
    var l := Line(Written(was), true);
    OneSetting(was);
    EntriesConcat(before, Repeat(l, n));
    assert Repeat(l, n) == [l] + Repeat(l, n - 1);
    var rest := Entries(Repeat(l, n - 1));
    assert Entries(before) + ([was] + rest) == Entries(before) + [was] + rest;
    MoreHeld(us, Entries(before) + [was], rest);
  }

  /** More settings in the file leave no more of the updates missing. */
  lemma {:induction false} MoreHeld(us: seq<Setting>, es: seq<Setting>, more: seq<Setting>)
    requires Missing(us, es) == []
    ensures Missing(us, es + more) == []
  {
    if us != [] {
      assert Holds(es, us[0].key);
      var i :| 0 <= i < |es| && es[i].key == us[0].key;
      assert (es + more)[i].key == us[0].key;
      MoreHeld(us[1..], es, more);
    }
  }

  lemma RenewedLine(us: seq<Setting>, u: Setting, was: Setting)
    requires Good(us) && u in us && Plain(was) && u.key == was.key
    ensures var l := Line(Written(was), true);
      && SettingOf(l) == Some(was) && Wanted(us, was.key) == Some(u)
      && SavedLine(us, l) == Line(Written(u), true)
      && |LineText(l)| == |Written(was)| + 1 && |LineText(SavedLine(us, l))| == |Written(u)| + 1
      && ReadSetting(l) == Some(was) && '\0' !in l.content && '\0' !in Written(u)
  {
    hide Split, Stripped, Written, AllPlain, Distinct;
    OneSetting(was);
    SeenIsRead(Line(Written(was), true));
    SplitWritten(was);
    WantedMember(us, u);
    WholeWritten(was);
    PlainMember(us, u);
    WholeWritten(u);
    assert Written(u) + "" == Written(u);
  }

  lemma PlainMember(us: seq<Setting>, u: Setting)
    requires AllPlain(us) && u in us
    ensures Plain(u)
  {}

  /** The arithmetic of running out: lengths a and b of the old and the new setting, and of the
      lines before, old and new. */
  lemma RunsOut(n: nat, a: nat, b: nat, p: nat, q: nat)
    requires n >= 2 && (q - p) + (n - 1) * (b - a) < SLACK < (q - p) + n * (b - a)
    ensures q < p + n * (a + 1) + SLACK
    ensures q + (n - 1) * (b + 1) + b >= p + n * (a + 1) + SLACK
    ensures q + (n - 2) * (b + 1) + b < p + n * (a + 1) + SLACK
    ensures q + (n - 1) * (b + 1) + (a + 1) < p + n * (a + 1) + SLACK
  {
    var d := b - a;
    assert n * d == (n - 1) * d + d;
    assert n * (b + 1) == n * (a + 1) + n * d;
    assert (n - 1) * (b + 1) == (n - 1) * (a + 1) + (n - 1) * d;
    assert n * (b + 1) == (n - 1) * (b + 1) + (b + 1) && (n - 1) * (b + 1) == (n - 2) * (b + 1) + (b + 1);
    assert n * (a + 1) == (n - 1) * (a + 1) + (a + 1);
    assert (n - 1) * d >= 0 && (n - 1) * (a + 1) >= 0;
  }

  lemma OutClean(us: seq<Setting>, before: seq<Line>, u: Setting, was: Setting, n: nat)
    requires Good(us) && u in us && Plain(was) && Complete(before) && n > 0
    ensures var out := SavedLines(us, before) + Repeat(Line(Written(u), true), n - 1) + [Line(Written(was), true)];
      ZeroFree(out)
  {
    hide Plain, Written, SavedLine, SettingOf, AllPlain, Distinct;
    PlainMember(us, u);
    WholeWritten(u);
    WholeWritten(was);
    forall i | 0 <= i < |before| ensures '\0' !in SavedLine(us, before[i]).content {
      KeptClean(us, before[i]);
    }
  }

  lemma KeptClean(us: seq<Setting>, l: Line)
    requires AllPlain(us) && '\0' !in l.content
    ensures '\0' !in SavedLine(us, l).content
  {
    hide SettingOf, Written;
    if SettingOf(l).Some? && Wanted(us, SettingOf(l).value.key).Some? {
      RenewedClean(us, l);
    }
  }

  lemma ReadsWas<T>(out: seq<Line>, was: Setting, key: string, parse: string -> Option<T>)
    requires out != [] && ReadSetting(out[|out| - 1]) == Some(was) && was.key == key && parse(was.value).Some?
    ensures Loaded(Readings(out), key, parse) == parse(was.value)
  {
    hide ReadSetting, Readings, Loaded;
    LastSaid(out, key, parse, |out| - 1);
  }

  /** The settings line of a setting. */
  function SettingLine(s: Setting): Line { Line(Written(s), true) }

  /** As the savers can meet it: the Wi-Fi settings as they are to be, then one hundred and
      seventy-one lines that set the screen timeout to 5 minutes. Saving 1440 minutes succeeds,
      and the timeout read back is still 5. */
  lemma ScreenUpdateLost(wifi: nat, file: string)
    requires var f := IdleRequest(1440, wifi);
      file == Text([SettingLine(Setting("wifi_idle_off_minutes", NumberText(f.wifi, IDLE_MAX).value)),
                    SettingLine(Setting("wifi_idle_disconnect", FlagText(f.wifi).value))]
                   + Repeat(SettingLine(Setting("screen_idle_off_minutes", "5")), 171))
    ensures |file| <= 16384 && Tidy(file)
    ensures Succeeds(UpdatesOf(IdleRequest(1440, wifi)), file)
    ensures Loaded(OnCard(UpdatesOf(IdleRequest(1440, wifi)), file), "screen_idle_off_minutes", ParseDigits) == ParseDigits("5") != Some(1440)
  {
    hide Text, Lines, Entries, OnCard, Loaded, Written, Good, Succeeds, Decimal, Number, SavedLines, Repeat, Missing, Plain, Proper, Complete,
      SettingOf, Tidy;
    var f := IdleRequest(1440, wifi);
    var us := UpdatesOf(f);
    var a, b := Setting("wifi_idle_off_minutes", NumberText(f.wifi, IDLE_MAX).value), Setting("wifi_idle_disconnect", FlagText(f.wifi).value);
    var u, was := Setting("screen_idle_off_minutes", NumberText(f.screen, IDLE_MAX).value), Setting("screen_idle_off_minutes", "5");
    UpdatesGood(f);
    UpdatesHave(f);
    IdleUpdates(1440, wifi);
    ScreenPlain();
    ParsesFive();
    var before := [SettingLine(a), SettingLine(b)];
    TwoLines(us, a, b, was, 171);
    HeldThree(us, u, a, b, was);
    IdleLengths(wifi);
    RepeatLength(SettingLine(was), 171);
    OneLineLength(was);
    TextConcat(before, Repeat(SettingLine(was), 171));
    UpdateLost(us, before, u, was, 171, file, ParseDigits);
  }

  lemma IdleUpdates(screen: nat, wifi: nat)
    ensures var f := IdleRequest(screen, wifi);
      UpdatesOf(f) == [Setting("screen_idle_off_minutes", NumberText(f.screen, IDLE_MAX).value),
                       Setting("wifi_idle_off_minutes", NumberText(f.wifi, IDLE_MAX).value),
                       Setting("wifi_idle_disconnect", FlagText(f.wifi).value)]
  {
    hide Decimal;
  }

  lemma IdleLengths(wifi: nat)
    ensures |Written(Setting("screen_idle_off_minutes", "5"))| == 25
    ensures |Written(Setting("screen_idle_off_minutes", NumberText(Some(1440), IDLE_MAX).value))| == 28
    ensures |Written(Setting("wifi_idle_off_minutes", NumberText(Some(wifi), IDLE_MAX).value))| <= 26
    ensures |Written(Setting("wifi_idle_disconnect", FlagText(Some(wifi)).value))| <= 25
  {
    hide Decimal;
    NumbersShort(Some(wifi), IDLE_MAX);
    DecimalStep(1440);
    DecimalStep(144);
    DecimalStep(14);
    DecimalStep(1);
  }

  /** Lines of plain settings that the request asks for as they are. */
  lemma TwoLines(us: seq<Setting>, a: Setting, b: Setting, was: Setting, n: nat)
    requires Good(us) && a in us && b in us && Plain(was)
    ensures var before := [SettingLine(a), SettingLine(b)];
      && Proper(before) && Complete(before) && SavedLines(us, before) == before
      && Entries(before) == [a, b] && |Text(before)| == |Written(a)| + |Written(b)| + 2
      && Tidy(Text(before + Repeat(SettingLine(was), n)))
  {
    hide Written, Plain, SettingOf, SavedLine, AllPlain, Distinct, Text, Lines, Entries, Tidy, SavedLines, ReadSetting;
    var before := [SettingLine(a), SettingLine(b)];
    PlainMember(us, a);
    PlainMember(us, b);
    PlainSettingLine(a);
    PlainSettingLine(b);
    RenewedLine(us, a, a);
    RenewedLine(us, b, b);
    TwoKept(us, before);
    TwoLong(a, b);
    EntriesConcat([SettingLine(a)], [SettingLine(b)]);
    OneSettingLine(a);
    OneSettingLine(b);
    assert before == [SettingLine(a)] + [SettingLine(b)];
    TidyRepeat(before, was, n);
  }

  lemma PlainSettingLine(s: Setting)
    requires Plain(s)
    ensures var l := SettingLine(s); l.ended && '\n' !in l.content && '\0' !in l.content && |l.content| <= READ_MAX
  {
    hide Written, Plain;
    PlainLine(s);
    WholeWritten(s);
    PlainShort(s);
  }

  lemma OneSettingLine(s: Setting)
    requires Plain(s)
    ensures Entries([SettingLine(s)]) == [s]
  {
    hide Written, Plain, SettingOf;
    OneSetting(s);
    assert [SettingLine(s)][1..] == [];
  }

  lemma TwoKept(us: seq<Setting>, ls: seq<Line>)
    requires |ls| == 2 && SavedLine(us, ls[0]) == ls[0] && SavedLine(us, ls[1]) == ls[1]
    ensures SavedLines(us, ls) == ls
  {
    hide SavedLine;
  }

  lemma TwoLong(a: Setting, b: Setting)
    ensures |Text([SettingLine(a), SettingLine(b)])| == |Written(a)| + |Written(b)| + 2
  {
    hide Written, Text;
    TextCons(SettingLine(a), [SettingLine(b)]);
    OneText(SettingLine(b));
    assert [SettingLine(a), SettingLine(b)] == [SettingLine(a)] + [SettingLine(b)];
    OneLineLength(a);
    OneLineLength(b);
  }

  lemma TidyRepeat(before: seq<Line>, was: Setting, n: nat)
    requires Proper(before) && Complete(before) && Plain(was)
    requires forall i | 0 <= i < |before| :: |before[i].content| <= READ_MAX
    ensures Tidy(Text(before + Repeat(SettingLine(was), n)))
  {
    hide Written, Plain, Text, Lines, Tidy, Proper;
    PlainSettingLine(was);
    RepeatedFile(before, was, n);
    TidyLines(before + Repeat(SettingLine(was), n));
  }

  lemma {:induction false} TidyLines(ls: seq<Line>)
    requires Lines(Text(ls)) == ls && forall i | 0 <= i < |ls| :: '\0' !in ls[i].content && |ls[i].content| <= READ_MAX
    ensures Tidy(Text(ls))
  {
    hide Lines;
    CleanText(ls);
  }

  lemma {:induction false} CleanText(ls: seq<Line>)
    requires forall i | 0 <= i < |ls| :: '\0' !in ls[i].content
    ensures '\0' !in Text(ls)
  {
    if ls != [] {
      assert forall i | 0 <= i < |ls[1..]| :: ls[1..][i] == ls[i + 1];
      CleanText(ls[1..]);
    }
  }

  lemma HeldThree(us: seq<Setting>, u: Setting, a: Setting, b: Setting, was: Setting)
    requires us == [u, a, b] && was.key == u.key
    ensures Missing(us, [a, b] + [was]) == []
  {
    var es := [a, b] + [was];
    assert es[0].key == us[1].key && es[1].key == us[2].key && es[2].key == us[0].key;
    AllHeldNoneMissing(us, es);
  }

  lemma {:induction false} AllHeldNoneMissing(us: seq<Setting>, es: seq<Setting>)
    requires forall i | 0 <= i < |us| :: Holds(es, us[i].key)
    ensures Missing(us, es) == []
  {
    hide Holds;
    if us != [] {
      assert forall i | 0 <= i < |us[1..]| :: us[1..][i] == us[i + 1];
      AllHeldNoneMissing(us[1..], es);
    }
  }

  lemma OneLineLength(s: Setting)
    ensures |LineText(SettingLine(s))| == |Written(s)| + 1
  {}

  lemma ScreenPlain()
    ensures Plain(Setting("screen_idle_off_minutes", "5"))
  {
    ScreenKey();
  }

  lemma ParsesFive()
    ensures ParseDigits("5") == Some(5)
  {
    assert "5"[..0] == "";
    assert Number("5") == 5;
  }
}
