/** Network shares: saved favourites, relative paths and the order of discovery. */
module Smb {
  import opened Ini

  // ---- discovery ------------------------------------------------------------------------------------

  /** The host number probed at a step: low and high numbers in turn. */
  function HostAt(index: nat): nat {
    if index == 0 || index > 254 then 0
    else if index % 2 != 0 then (index + 1) / 2
    else 255 - index / 2
  }

  /** Every host number is probed at exactly one step. */
  lemma EveryHostOnce(host: nat)
    requires 1 <= host <= 254
    ensures exists i :: 1 <= i <= 254 && HostAt(i) == host
    ensures forall i, j | 1 <= i <= 254 && 1 <= j <= 254 && HostAt(i) == HostAt(j) :: i == j
    ensures forall i | 1 <= i <= 254 :: 1 <= HostAt(i) <= 254
  {
    var i := if host <= 127 then 2 * host - 1 else 2 * (255 - host);
    assert HostAt(i) == host;
  }

  /** From both ends inwards: after 2k steps exactly the k lowest and the k highest hosts
      have been visited. */
  lemma FromBothEnds(k: nat, host: nat)
    requires k <= 127 && 1 <= host <= 254
    ensures (exists i :: 1 <= i <= 2 * k && HostAt(i) == host) <==> host <= k || host >= 255 - k
  {
    var i := if host <= 127 then 2 * host - 1 else 2 * (255 - host);
    assert HostAt(i) == host;
    EveryHostOnce(host);
  }

  // ---- paths -----------------------------------------------------------------------------------------

  const PATH_MAX: nat := 240

  predicate Separator(c: char) { c == '/' || c == '\\' }

  /** Position of the first separator, or the length. */
  function Cut(s: string): (i: nat)
    ensures i <= |s| && (i < |s| ==> Separator(s[i])) && forall k | 0 <= k < i :: !Separator(s[k])
  {
    if s == "" || Separator(s[0]) then 0 else 1 + Cut(s[1..])
  }

  /** The non-empty pieces between separators. */
  function Segments(s: string): (r: seq<string>)
    ensures forall i | 0 <= i < |r| :: r[i] != "" && forall k | 0 <= k < |r[i]| :: !Separator(r[i][k])
    decreases |s|
  {
    if s == "" then []
    else
      var n := Cut(s);
      if n == 0 then Segments(s[1..]) else [s[..n]] + Segments(s[n..])
  }

  predicate ValidSegment(s: string) { s != "" && s != "." && s != ".." }

  ghost predicate AllValid(segments: seq<string>) { forall i | 0 <= i < |segments| :: ValidSegment(segments[i]) }

  /** The pieces with single slashes between them. */
  function Joined(segments: seq<string>): string {
    if segments == [] then ""
    else if |segments| == 1 then segments[0]
    else Joined(segments[..|segments| - 1]) + "/" + segments[|segments| - 1]
  }

  ghost predicate Clean(segments: seq<string>) {
    forall i | 0 <= i < |segments| :: segments[i] != "" && forall k | 0 <= k < |segments[i]| :: !Separator(segments[i][k])
  }

  lemma {:induction false} SegmentsConcat(a: string, c: char, b: string)
    requires Separator(c)
    ensures Segments(a + [c] + b) == Segments(a) + Segments(b)
    decreases |a|
  {
    var whole := a + [c] + b;
    if a == "" {
      assert whole[1..] == b;
    } else {
      var n := Cut(a);
      CutPrefix(a, c, b);
      if n == 0 {
        assert whole[1..] == a[1..] + [c] + b;
        SegmentsConcat(a[1..], c, b);
      } else {
        assert whole[..n] == a[..n] && whole[n..] == a[n..] + [c] + b;
        SegmentsConcat(a[n..], c, b);
      }
    }
  }

  lemma {:induction false} CutPrefix(a: string, c: char, b: string)
    requires Separator(c)
    ensures Cut(a + [c] + b) == Cut(a)
  {
    if a != "" && !Separator(a[0]) {
      assert (a + [c] + b)[1..] == a[1..] + [c] + b;
      CutPrefix(a[1..], c, b);
    }
  }

  lemma OneSegment(s: string)
    requires s != "" && forall k | 0 <= k < |s| :: !Separator(s[k])
    ensures Segments(s) == [s]
  {
    assert Cut(s) == |s| && s[..|s|] == s && s[|s|..] == "";
  }

  /** Cutting a joined path gives the pieces back. */
  lemma {:induction false} SegmentsOfJoined(segments: seq<string>)
    requires Clean(segments)
    ensures Segments(Joined(segments)) == segments
    decreases |segments|
  {
    if |segments| == 1 {
      OneSegment(segments[0]);
    } else if |segments| > 1 {
      var front, last := segments[..|segments| - 1], segments[|segments| - 1];
      SegmentsOfJoined(front);
      assert Joined(segments) == Joined(front) + ['/'] + last;
      SegmentsConcat(Joined(front), '/', last);
      OneSegment(last);
    }
  }

  function Truncated(s: string, room: nat): string { if |s| < room then s else if room == 0 then "" else s[..room - 1] }

  /** What normalising a path means. */
  ghost function Normal(input: string, room: nat, allowEmpty: bool): Option<string> {
    var segments := Segments(Truncated(input, PATH_MAX));
    if room == 0 then None
    else if !AllValid(segments) then None
    else if segments == [] then if allowEmpty then Some("") else None
    else if |Joined(segments)| < room then Some(Joined(segments)) else None
  }

  /** Piece by piece, each checked and appended while it fits. */
  method Normalize(input: string, room: nat, allowEmpty: bool) returns (ok: bool, output: string)
    ensures ok <==> Normal(input, room, allowEmpty).Some?
    ensures ok ==> output == Normal(input, room, allowEmpty).value
  {
    hide Segments, Joined, Cut, AllValid, ValidSegment, Truncated;
    output := "";
    if room == 0 {
      return false, output;
    }
    var rest := Truncated(input, PATH_MAX);
    ghost var all, done := Segments(rest), [];
    NoSegments();
    assert [] + all == all;
    while rest != ""
      invariant all == done + Segments(rest)
      invariant AllValid(done) && output == Joined(done) && |output| < room
      invariant done == [] <==> output == ""
      decreases |rest|
    {
      var n := Cut(rest);
      SegmentStep(rest);
      if n == 0 {
        rest := rest[1..];
      } else {
        var token := rest[..n];
        ghost var more := Segments(rest[n..]);
        assert all == done + [token] + more && all[|done|] == token;
        Longer(done, token, more);
        MoreValid(done, token, more);
        if !ValidSegment(token) {
          return false, output;
        }
        var next := if output == "" then token else output + "/" + token;
        if |next| >= room {
          return false, output;
        }
        output := next;
        done := done + [token];
        rest := rest[n..];
      }
    }
    NoSegments();
    assert all == done;
    ok := output != "" || allowEmpty;
  }

  lemma MoreValid(done: seq<string>, token: string, more: seq<string>)
    ensures AllValid(done) && ValidSegment(token) ==> AllValid(done + [token])
    ensures !ValidSegment(token) ==> !AllValid(done + [token] + more)
    ensures ValidSegment(token) ==> token != ""
  {
    hide ValidSegment;
    var all := done + [token] + more;
    assert all[|done|] == token;
    NotEmpty(token);
  }

  lemma NotEmpty(token: string)
    ensures ValidSegment(token) ==> token != ""
  {}

  lemma NoSegments()
    ensures Segments("") == [] && Joined([]) == "" && AllValid([])
  {}

  lemma SegmentStep(s: string)
    requires s != ""
    ensures Cut(s) == 0 ==> Segments(s) == Segments(s[1..])
    ensures Cut(s) > 0 ==> Segments(s) == [s[..Cut(s)]] + Segments(s[Cut(s)..]) && s[..Cut(s)] != ""
  {}

  /** Joining grows with every piece. */
  lemma Longer(done: seq<string>, token: string, more: seq<string>)
    ensures Joined(done + [token]) == if done == [] then token else Joined(done) + "/" + token
    ensures |Joined(done + [token])| <= |Joined(done + [token] + more)|
    decreases |more|
  {
    assert (done + [token])[..|done|] == done;
    if more == [] {
      assert done + [token] + [] == done + [token];
    } else {
      var all := done + [token] + more;
      assert all[..|all| - 1] == done + [token] + more[..|more| - 1];
      Longer(done, token, more[..|more| - 1]);
    }
  }

  /** Normalising twice is normalising once. */
  lemma NormalIdempotent(input: string, room: nat, allowEmpty: bool)
    requires Normal(input, room, allowEmpty).Some? && room <= PATH_MAX
    ensures Normal(Normal(input, room, allowEmpty).value, room, allowEmpty) == Normal(input, room, allowEmpty)
  {
    var segments := Segments(Truncated(input, PATH_MAX));
    SegmentsOfJoined(segments);
  }

  /** A normal path has no empty piece and none that stays or climbs, no backslash, and no
      slash at either end. */
  lemma NormalIsSafe(input: string, room: nat, allowEmpty: bool)
    requires Normal(input, room, allowEmpty).Some?
    ensures var out := Normal(input, room, allowEmpty).value;
      && |out| < room && (out == "" ==> allowEmpty) && '\\' !in out
      && (out != "" ==> out[0] != '/' && out[|out| - 1] != '/')
      && forall i | 0 <= i < |Segments(out)| ::
           Segments(out)[i] != "" && Segments(out)[i] != "." && Segments(out)[i] != ".." && '/' !in Segments(out)[i]
  {
    hide Segments, Joined, Truncated;
    var segments := Segments(Truncated(input, PATH_MAX));
    SegmentsOfJoined(segments);
    JoinedEnds(segments);
    NoSegments();
  }

  lemma {:induction false} JoinedEnds(segments: seq<string>)
    requires Clean(segments)
    ensures '\\' !in Joined(segments)
    ensures segments != [] ==>
      Joined(segments) != "" && Joined(segments)[0] != '/' && Joined(segments)[|Joined(segments)| - 1] != '/'
    decreases |segments|
  {
    if |segments| > 1 {
      JoinedEnds(segments[..|segments| - 1]);
    }
  }

  // ---- favourites ------------------------------------------------------------------------------------------

  datatype Favorite = Favorite(
    id: nat, title: string, host: string, share: string, user: string, password: string, domain: string,
    port: nat, signing: bool)

  const DEFAULT_PORT: nat := 445
  const NOTHING := Favorite(0, "", "", "", "", "", "", 0, false)

  datatype Field = Field(key: string, value: string)

  function Fields(f: Favorite): seq<Field> {
    [Field("id", Decimal(f.id)), Field("label", f.title), Field("host", f.host), Field("share", f.share), Field("user", f.user),
     Field("password", f.password), Field("domain", f.domain), Field("port", Decimal(f.port)),
     Field("signing", if f.signing then "1" else "0")]
  }

  function FieldLine(x: Field): Line { Line(x.key + "=" + x.value, true) }

  function FieldLines(xs: seq<Field>): (r: seq<Line>)
    ensures |r| == |xs| && forall i | 0 <= i < |xs| :: r[i] == FieldLine(xs[i])
  {
    if xs == [] then [] else [FieldLine(xs[0])] + FieldLines(xs[1..])
  }

  /** The saved form: one line per field. */
  function Encode(f: Favorite): string { Text(FieldLines(Fields(f))) }

  function ReadNumber(s: string): nat { if forall i | 0 <= i < |s| :: '0' <= s[i] <= '9' then Number(s) else 0 }

  function Lower(c: char): char { if 'A' <= c <= 'Z' then c - 'A' + 'a' else c }

  function Lowered(s: string): (r: string)
    ensures |r| == |s|
  {
    seq(|s|, i requires 0 <= i < |s| => Lower(s[i]))
  }

  predicate IsTrue(s: string) { s == "1" || Lowered(s) == "true" || Lowered(s) == "yes" || Lowered(s) == "on" }

  lemma FlagReads(flag: bool)
    ensures IsTrue(if flag then "1" else "0") == flag
  {}

  /** What one line of the saved form sets. */
  function Assigned(f: Favorite, key: string, value: string): Favorite {
    if key == "id" then f.(id := ReadNumber(value))
    else if key == "label" then f.(title := Truncated(value, 128))
    else if key == "host" then f.(host := Truncated(value, 64))
    else if key == "share" then f.(share := Truncated(value, 64))
    else if key == "user" then f.(user := Truncated(value, 64))
    else if key == "password" then f.(password := Truncated(value, 96))
    else if key == "domain" then f.(domain := Truncated(value, 64))
    else if key == "port" then f.(port := ReadNumber(value))
    else if key == "signing" then f.(signing := IsTrue(value))
    else f
  }

  function LineRead(f: Favorite, l: Line): Favorite {
    var line := Stripped(l.content);
    var eq := IndexOf(line, '=');
    if eq == |line| then f else Assigned(f, line[..eq], line[eq + 1..])
  }

  function AllRead(f: Favorite, ls: seq<Line>): Favorite
    decreases |ls|
  {
    if ls == [] then f else AllRead(LineRead(f, ls[0]), ls[1..])
  }

  predicate ValidHost(host: string) { host != "" && '/' !in host && '\\' !in host }

  function Decode(text: string): (bool, Favorite) {
    var f := AllRead(NOTHING, Lines(Truncated(text, 768)));
    var g := if f.port == 0 then f.(port := DEFAULT_PORT) else f;
    var h := if g.title == "" then g.(title := Truncated("//" + g.host + "/" + g.share, 128)) else g;
    (h.id != 0 && ValidHost(h.host) && h.share != "", h)
  }

  /** Text that survives a line of its own. */
  predicate LineSafe(s: string, room: nat) { |s| < room && '\n' !in s && (s != "" ==> s[|s| - 1] != '\r') }

  predicate Savable(f: Favorite) {
    && f.id != 0 && ValidHost(f.host) && f.share != ""
    && LineSafe(f.title, 128) && LineSafe(f.host, 64) && LineSafe(f.share, 64) && LineSafe(f.user, 64)
    && LineSafe(f.password, 96) && LineSafe(f.domain, 64) && |Encode(f)| < 768
  }

  predicate FieldSafe(x: Field) {
    x.key != "" && '=' !in x.key && '\n' !in x.key && LineSafe(x.value, |x.value| + 1)
  }

  ghost predicate AllSafe(xs: seq<Field>) { forall i | 0 <= i < |xs| :: FieldSafe(xs[i]) }

  lemma FieldReads(f: Favorite, x: Field)
    requires FieldSafe(x)
    ensures LineRead(f, FieldLine(x)) == Assigned(f, x.key, x.value)
  {
    hide Assigned, Stripped, IndexOf;
    var w := x.key + "=" + x.value;
    assert w[|w| - 1] == if x.value == "" then '=' else x.value[|x.value| - 1];
    StripOnce(w);
    assert w == x.key + ['='] + x.value;
    IndexAfter(x.key, '=', x.value);
    assert w[..|x.key|] == x.key && w[|x.key| + 1..] == x.value;
  }

  function AssignedAll(f: Favorite, xs: seq<Field>): Favorite
    decreases |xs|
  {
    if xs == [] then f else AssignedAll(Assigned(f, xs[0].key, xs[0].value), xs[1..])
  }

  lemma {:induction false} FieldsRead(f: Favorite, xs: seq<Field>)
    requires AllSafe(xs)
    ensures AllRead(f, FieldLines(xs)) == AssignedAll(f, xs)
    decreases |xs|
  {
    hide Assigned, LineRead, FieldSafe, FieldLine;
    if xs != [] {
      FieldReads(f, xs[0]);
      FieldsRead(Assigned(f, xs[0].key, xs[0].value), xs[1..]);
      assert FieldLines(xs)[1..] == FieldLines(xs[1..]);
    }
  }

  lemma NumberSafe(n: nat)
    ensures LineSafe(Decimal(n), |Decimal(n)| + 1) && ReadNumber(Decimal(n)) == n
  {
    hide Decimal, Number;
    DecimalReads(n);
    var d := Decimal(n);
    assert forall i | 0 <= i < |d| :: d[i] != '\n' && d[i] != '\r';
  }

  lemma FieldsProper(xs: seq<Field>)
    requires AllSafe(xs)
    ensures Proper(FieldLines(xs))
  {
    forall i | 0 <= i < |xs| ensures '\n' !in FieldLines(xs)[i].content {
      assert FieldSafe(xs[i]);
    }
  }

  lemma SafeKeys()
    ensures FieldSafe(Field("id", "")) && FieldSafe(Field("label", "")) && FieldSafe(Field("host", ""))
    ensures FieldSafe(Field("share", "")) && FieldSafe(Field("user", "")) && FieldSafe(Field("password", ""))
    ensures FieldSafe(Field("domain", "")) && FieldSafe(Field("port", "")) && FieldSafe(Field("signing", ""))
  {}

  lemma KeepsKey(key: string, value: string, room: nat)
    requires FieldSafe(Field(key, "")) && LineSafe(value, room)
    ensures FieldSafe(Field(key, value)) && Truncated(value, room) == value
  {}

  lemma FieldsSafe(f: Favorite)
    requires Savable(f)
    ensures AllSafe(Fields(f))
  {
    hide FieldSafe, Decimal, ReadNumber, Encode, ValidHost;
    SafeKeys();
    NumberSafe(f.id);
    NumberSafe(f.port);
    KeepsKey("id", Decimal(f.id), |Decimal(f.id)| + 1);
    KeepsKey("port", Decimal(f.port), |Decimal(f.port)| + 1);
    KeepsKey("signing", if f.signing then "1" else "0", 2);
    KeepsKey("label", f.title, 128);
    KeepsKey("host", f.host, 64);
    KeepsKey("share", f.share, 64);
    KeepsKey("user", f.user, 64);
    KeepsKey("password", f.password, 96);
    KeepsKey("domain", f.domain, 64);
  }

  /** A favourite with only its first fields set. */
  function Half(f: Favorite): Favorite { NOTHING.(id := f.id, title := f.title, host := f.host, share := f.share) }

  lemma FirstFields(f: Favorite)
    requires Savable(f)
    ensures AssignedAll(NOTHING, Fields(f)) == AssignedAll(Half(f), Fields(f)[4..])
  {
    hide Decimal, ReadNumber, Encode, ValidHost, LineSafe;
    NumberSafe(f.id);
    Untouched(f);
    var xs := Fields(f);
    var f1 := NOTHING.(id := f.id);
    var f2 := f1.(title := f.title);
    var f3 := f2.(host := f.host);
    AssignedFrom(NOTHING, xs, 0);
    AssignedFrom(f1, xs, 1);
    AssignedFrom(f2, xs, 2);
    AssignedFrom(f3, xs, 3);
    assert xs[0..] == xs;
  }

  lemma LastFields(f: Favorite)
    requires Savable(f)
    ensures AssignedAll(Half(f), Fields(f)[4..]) == f
  {
    hide Decimal, ReadNumber, Encode, ValidHost, LineSafe, IsTrue;
    NumberSafe(f.port);
    FlagReads(f.signing);
    Untouched(f);
    var xs := Fields(f);
    var f5 := Half(f).(user := f.user);
    var f6 := f5.(password := f.password);
    var f7 := f6.(domain := f.domain);
    var f8 := f7.(port := f.port);
    AssignedFrom(Half(f), xs, 4);
    AssignedFrom(f5, xs, 5);
    AssignedFrom(f6, xs, 6);
    AssignedFrom(f7, xs, 7);
    AssignedFrom(f8, xs, 8);
    assert xs[9..] == [];
  }

  lemma Untouched(f: Favorite)
    requires Savable(f)
    ensures Truncated(f.title, 128) == f.title && Truncated(f.host, 64) == f.host && Truncated(f.share, 64) == f.share
    ensures Truncated(f.user, 64) == f.user && Truncated(f.password, 96) == f.password && Truncated(f.domain, 64) == f.domain
  {
    hide Encode;
  }

  lemma AssignedFrom(f: Favorite, xs: seq<Field>, k: nat)
    requires k < |xs|
    ensures AssignedAll(f, xs[k..]) == AssignedAll(Assigned(f, xs[k].key, xs[k].value), xs[k + 1..])
  {
    hide Assigned;
    assert xs[k..][0] == xs[k] && xs[k..][1..] == xs[k + 1..];
  }

  /** A favourite whose fields fit and keep to one line each comes back as it was saved; a port
      or a title left out comes back as the standard one. */
  lemma FavoriteReads(f: Favorite)
    requires Savable(f)
    ensures Decode(Encode(f)).0
    ensures Decode(Encode(f)).1 ==
      f.(port := if f.port == 0 then 445 else f.port,
         title := if f.title == "" then Truncated("//" + f.host + "/" + f.share, 128) else f.title)
  {
    hide Decimal, Fields, AllRead, FieldLines;
    FieldsSafe(f);
    FieldsProper(Fields(f));
    LinesOfText(FieldLines(Fields(f)));
    FieldsRead(NOTHING, Fields(f));
    FirstFields(f);
    LastFields(f);
  }

  /** With port and title given it comes back as it was. */
  lemma FavoriteRoundTrip(f: Favorite)
    requires Savable(f) && f.port > 0 && f.title != ""
    ensures Decode(Encode(f)) == (true, f)
  {
    hide Decode, Encode, Savable;
    FavoriteReads(f);
  }
}
