/** Printing a profile and loading it back: what is recovered, exactly. */
module ProfileRoundTrips {
  import opened Text
  import opened RuntimeState
  import opened ProfileText

  // ------------------------------------------------------------------ iwd names

  lemma {:induction false} HexChunkOfHex2(b: byte)
    ensures HexChunk(Utf8(Hex2(b))) == Some(b)
  {
    Utf8RoundTrip(Hex2(b));
    var high, low := Digit(b / 16), Digit(b % 16);
    assert HexDigit(high) == Some(b / 16) && HexDigit(low) == Some(b % 16);
    assert high != '+';
  }

  lemma {:induction false} Utf8OfHex2(b: byte, rest: string)
    ensures |Utf8(Hex2(b))| == 2
    ensures Utf8(Hex2(b) + rest) == Utf8(Hex2(b)) + Utf8(rest)
  {
    var s := Hex2(b) + rest;
    assert s[1..] == [Digit(b % 16)] + rest && s[1..][1..] == rest;
    assert Hex2(b)[1..] == [Digit(b % 16)] && Hex2(b)[1..][1..] == [];
    var high, low := Digit(b / 16), Digit(b % 16);
    assert EncodeChar(high) == [high as int] && EncodeChar(low) == [low as int];
    assert Utf8([low]) == [low as int] by {
      assert [low][1..] == [];
    }
  }

  lemma {:induction false} DecodeHexOf(bytes: seq<byte>)
    ensures HexBytes(Utf8(HexOf(bytes))) == Some(bytes)
  {
    if bytes != [] {
      var b, rest := bytes[0], bytes[1..];
      DecodeHexOf(rest);
      HexChunkOfHex2(b);
      Utf8OfHex2(b, HexOf(rest));
      var encoded := Utf8(HexOf(bytes));
      assert encoded[..2] == Utf8(Hex2(b)) && encoded[2..] == Utf8(HexOf(rest));
      assert [b] + rest == bytes;
    }
  }

  /** Every name comes back from its encoding, the empty one included. */
  lemma {:induction false} IwdNameRoundTrip(ssid: string)
    ensures SsidOfStem(EncodeIwdName(ssid)) == Ok(ssid)
  {
    if !(forall i :: 0 <= i < |ssid| ==> IsPlain(ssid[i])) {
      var stem := EncodeIwdName(ssid);
      assert stem[1..] == HexOf(Utf8(ssid));
      DecodeHexOf(Utf8(ssid));
      Utf8RoundTrip(ssid);
    }
  }

  lemma {:induction false} IwdNameInjective(a: string, b: string)
    requires EncodeIwdName(a) == EncodeIwdName(b)
    ensures a == b
  {
    IwdNameRoundTrip(a);
    IwdNameRoundTrip(b);
  }

  lemma {:induction false} HexOfIsPlain(bytes: seq<byte>)
    ensures forall i :: 0 <= i < |HexOf(bytes)| ==> IsPlain(HexOf(bytes)[i])
  {
    if bytes != [] {
      HexOfIsPlain(bytes[1..]);
      assert IsPlain(Digit(bytes[0] / 16)) && IsPlain(Digit(bytes[0] % 16));
    }
  }

  lemma {:induction false} IwdNameHasNoDotOrSlash(ssid: string)
    ensures '.' !in EncodeIwdName(ssid) && '/' !in EncodeIwdName(ssid)
    ensures EncodeIwdName(ssid) == "" <==> ssid == ""
  {
    HexOfIsPlain(Utf8(ssid));
  }

  // ------------------------------------------------------------------ file names

  lemma {:induction false} LastSegmentSnoc(s: string, c: char)
    requires c != '/'
    ensures LastSegment(s + [c]) == LastSegment(s) + [c]
  {
    assert (s + [c])[..|s|] == s;
  }

  lemma {:induction false} LastSegmentKeepsTail(head: string, tail: string)
    requires '/' !in tail
    ensures LastSegment(head + tail) == LastSegment(head) + tail
  {
    hide LastSegment;
    if tail == [] {
      assert head + tail == head;
    } else {
      var front, c := tail[..|tail| - 1], tail[|tail| - 1];
      assert tail == front + [c];
      LastSegmentKeepsTail(head, front);
      LastSegmentSnoc(head + front, c);
      assert head + tail == (head + front) + [c];
      assert LastSegment(head) + tail == (LastSegment(head) + front) + [c];
    }
  }

  lemma {:induction false} LastSegmentOfJoin(dir: string, name: string)
    requires '/' !in name
    ensures LastSegment(Join(dir, name)) == name
  {
    var start := Join(dir, "");
    assert LastSegment(start) == "";
    assert Join(dir, name) == start + name;
    LastSegmentKeepsTail(start, name);
  }

  lemma {:induction false} FileNameOfJoin(dir: string, name: string)
    requires '/' !in name && |name| > 2
    ensures FileName(Join(dir, name)) == Some(name)
  {
    hide LastSegment;
    LastSegmentOfJoin(dir, name);
  }

  /** A name whose extension is the given text. */
  lemma {:induction false} SplitAtDot(stem: string, extension: string)
    requires forall i :: 0 <= i < |extension| ==> extension[i] != '.'
    ensures LastDot(stem + "." + extension) == |stem|
    ensures stem != "" ==> FileStem(stem + "." + extension) == stem
    ensures stem != "" ==> Extension(stem + "." + extension) == Some(extension)
    ensures stem == "" ==> FileStem("." + extension) == "." + extension && Extension("." + extension) == None
  {
    var name := stem + "." + extension;
    assert name[|stem|] == '.';
    assert forall i :: |stem| < i < |name| ==> name[i] == extension[i - |stem| - 1];
    assert name[..|stem|] == stem && name[|stem| + 1..] == extension;
    assert "" + "." + extension == "." + extension;
  }

  lemma {:induction false} JoinInjective(dir: string, a: string, b: string)
    ensures Join(dir, a) == Join(dir, b) <==> a == b
    ensures |Join(dir, a)| >= |a| && Join(dir, a)[|Join(dir, a)| - |a|..] == a
  {
    var p, q := Join(dir, a), Join(dir, b);
    var n := if dir == "" || dir[|dir| - 1] == '/' then |dir| else |dir| + 1;
    assert p[n..] == a && q[n..] == b;
    assert |p| == n + |a|;
  }

  // ------------------------------------------------------------------ lines

  function FirstLine(s: string): string {
    s[..IndexOf(s, '\n')]
  }

  lemma {:induction false} TrimStartSnoc(s: string, c: char)
    requires IsWhitespace(c)
    ensures TrimStart(s + [c]) == if TrimStart(s) == "" then "" else TrimStart(s) + [c]
  {
    if s == [] {
      assert s + [c] == [c];
    } else if IsWhitespace(s[0]) {
      assert (s + [c])[1..] == s[1..] + [c];
      TrimStartSnoc(s[1..], c);
    }
  }

  lemma {:induction false} TrimSnoc(s: string, c: char)
    requires IsWhitespace(c)
    ensures Trim(s + [c]) == Trim(s)
  {
    TrimStartSnoc(s, c);
    var t := TrimStart(s);
    if t != "" {
      assert (t + [c])[..|t|] == t;
    }
  }

  lemma {:induction false} TrimOfTrimEnd(s: string)
    ensures Trim(TrimEnd(s)) == Trim(s)
  {
    if s != [] && IsWhitespace(s[|s| - 1]) {
      var front, c := s[..|s| - 1], s[|s| - 1];
      assert s == front + [c];
      TrimSnoc(front, c);
      assert TrimEnd(s) == TrimEnd(front);
      TrimOfTrimEnd(front);
    }
  }
  lemma {:induction false} TrimIsTrimmed(s: string)
    ensures IsTrimmed(Trim(s)) && Trim(Trim(s)) == Trim(s)
    ensures forall c :: c in Trim(s) ==> c in s
  {
    var t := TrimStart(s);
    var r := TrimEnd(t);
    assert r == t[..|r|] && t == s[|s| - |t|..];
    assert r != "" ==> !IsWhitespace(t[0]) && !IsWhitespace(r[|r| - 1]);
    hide TrimStart, TrimEnd;
    assert r != "" ==> r[0] == t[0];
    TrimFixpoint(r);
    assert forall i :: 0 <= i < |r| ==> r[i] == t[i] && t[i] == s[|s| - |t| + i];
  }

  /** A text that has no line feed and is trimmed is its own first line, trimmed; no other is. */
  lemma {:induction false} RecoveredIff(s: string)
    ensures Trim(FirstLine(s)) == s <==> '\n' !in s && IsTrimmed(s)
  {
    var i := IndexOf(s, '\n');
    var line := s[..i];
    if i == |s| {
      assert line == s;
      TrimFixpoint(s);
    } else {
      TrimIsNoLonger(line);
      assert s[i] == '\n' && s[i] in s;
    }
  }
  lemma {:induction false} TrimIsNoLonger(s: string)
    ensures |Trim(s)| <= |s|
  {
    var t := TrimStart(s);
    assert |TrimEnd(t)| <= |t|;
  }

  // ------------------------------------------------------------------ the reader

  function FindIn(text: string, current: string, section: string, key: string): Option<string> {
    Find(Lines(text), current, section, key)
  }

  ghost predicate IsWord(s: string) {
    s != "" && forall i :: 0 <= i < |s| ==> IsAlnum(s[i])
  }

  lemma {:induction false} FindSkips(raw: string, rest: seq<string>, current: string, section: string, key: string)
    requires !IsSectionLine(Trim(raw))
    requires IsIgnored(Trim(raw)) || current != section
    ensures Find([raw] + rest, current, section, key) == Find(rest, current, section, key)
  {
    assert ([raw] + rest)[1..] == rest;
  }

  lemma {:induction false} FindEnters(raw: string, rest: seq<string>, current: string, section: string, key: string)
    requires IsSectionLine(Trim(raw))
    ensures Find([raw] + rest, current, section, key) == Find(rest, TrimBrackets(Trim(raw)), section, key)
  {
    assert ([raw] + rest)[1..] == rest;
  }

  lemma {:induction false} SectionName(name: string)
    requires IsWord(name)
    ensures TrimBrackets("[" + name + "]") == name
  {
    var half := name + "]";
    assert ("[" + name + "]")[1..] == half && half[..|half| - 1] == name;
    assert half[0] == name[0];
    assert TrimBrackets(name) == name;
    assert TrimBrackets(half) == name;
  }

  lemma {:induction false} SectionLineFacts(name: string)
    requires IsWord(name)
    ensures var line := "[" + name + "]";
            Trim(line) == line && DropCarriageReturn(line) == line && IsSectionLine(line) && '\n' !in line
  {
    var line := "[" + name + "]";
    TrimFixpoint(line);
    hide Trim;
    assert line[0] == '[' && line[|line| - 1] == ']';
    assert forall i :: 0 <= i < |line| ==> line[i] != '\n';
  }

  lemma {:induction false} EnterSection(name: string, rest: string, current: string, section: string, key: string)
    requires IsWord(name)
    ensures FindIn(Section(name) + rest, current, section, key) == FindIn(rest, name, section, key)
  {
    hide Find, Trim, TrimBrackets, IsSectionLine, Lines;
    var line := "[" + name + "]";
    SectionLineFacts(name);
    SectionName(name);
    assert Section(name) + rest == line + "\n" + rest;
    LinesOfLine(line, rest);
    FindEnters(line, Lines(rest), current, section, key);
  }

  lemma {:induction false} NothingLeft(current: string, section: string, key: string)
    ensures FindIn("", current, section, key) == None
  {
  }

  lemma {:induction false} SkipBlank(rest: string, current: string, section: string, key: string)
    ensures FindIn("\n" + rest, current, section, key) == FindIn(rest, current, section, key)
  {
    LinesOfLine("", rest);
    assert "" + "\n" + rest == "\n" + rest;
    FindSkips("", Lines(rest), current, section, key);
  }

  /** The first line of `key=value`, as the reader sees it. */
  lemma {:induction false} PairLine(key: string, v: string)
    requires IsWord(key) && '\n' !in v
    ensures var line := key + "=" + v;
            && '\n' !in line
            && Trim(DropCarriageReturn(line)) == key + "=" + TrimEnd(v)
  {
    hide TrimEnd, Trim;
    var head, line, w := key + "=", key + "=" + v, DropCarriageReturn(v);
    assert DropCarriageReturn(line) == head + w by {
      if v != "" {
        assert line[|line| - 1] == v[|v| - 1];
        assert line[..|line| - 1] == head + v[..|v| - 1];
      }
    }
    assert head[0] == key[0];
    TrimAfter(head, w);
    TrimEndAtReturn(v);
  }

  lemma {:induction false} TrimEndAtReturn(v: string)
    ensures TrimEnd(DropCarriageReturn(v)) == TrimEnd(v)
  {
  }

  lemma {:induction false} SkipPair(key: string, value: string, rest: string, current: string, section: string,
                                    wanted: string)
    requires IsWord(key) && '\n' !in value && current != section
    ensures FindIn(Pair(key, value) + rest, current, section, wanted) == FindIn(rest, current, section, wanted)
  {
    var line := key + "=" + value;
    PairLine(key, value);
    LinesOfLine(line, rest);
    assert Pair(key, value) + rest == line + "\n" + rest;
    var seen := key + "=" + TrimEnd(value);
    assert seen[0] == key[0];
    FindSkips(DropCarriageReturn(line), Lines(rest), current, section, wanted);
  }

  lemma {:induction false} SplitPair(key: string, tail: string)
    requires IsWord(key)
    ensures var line := key + "=" + tail;
            && !IsIgnored(line) && !IsSectionLine(line)
            && IndexOf(line, '=') == |key| && Trim(key) == key
  {
    TrimFixpoint(key);
    hide Trim;
    var line := key + "=" + tail;
    assert line[0] == key[0];
    assert forall j :: 0 <= j < |key| ==> line[j] == key[j] && line[j] != '=';
    assert line[|key|] == '=';
  }

  /** The value found behind a key is its first line, trimmed. */
  lemma {:induction false} ReadPair(key: string, value: string, rest: string, section: string)
    requires IsWord(key)
    ensures FindIn(Pair(key, value) + rest, section, section, key) == Some(Trim(FirstLine(value)))
  {
    hide Find, Lines, Trim, TrimEnd, FirstLine, Pair, IsIgnored, IsSectionLine;
    var v := FirstLine(value);
    FirstLineIsOne(value);
    var after := AfterLine(key, value, rest);
    PairLine(key, v);
    LinesOfLine(key + "=" + v, after);
    SplitPair(key, TrimEnd(v));
    FindReads(DropCarriageReturn(key + "=" + v), Lines(after), key, TrimEnd(v), section);
    TrimOfTrimEnd(v);
  }

  lemma {:induction false} FirstLineIsOne(value: string)
    ensures '\n' !in FirstLine(value)
  {
  }

  /** What is left of a printed pair after its first line. */
  lemma {:induction false} AfterLine(key: string, value: string, rest: string) returns (after: string)
    ensures Pair(key, value) + rest == (key + "=" + FirstLine(value)) + "\n" + after
  {
    var head, i := key + "=", IndexOf(value, '\n');
    var first, tail := value[..i], value[i..] + "\n" + rest;
    assert first == FirstLine(value) && tail[0] == '\n';
    hide IndexOf, FirstLine;
    Regroup(head, first, value[i..], rest);
    assert value == first + value[i..];
    after := tail[1..];
    Ungroup(head + first, tail);
  }

  lemma {:induction false} Regroup(head: string, first: string, more: string, rest: string)
    ensures head + (first + more) + "\n" + rest == (head + first) + (more + "\n" + rest)
  {
  }

  lemma {:induction false} Ungroup(line: string, tail: string)
    requires tail != "" && tail[0] == '\n'
    ensures line + tail == line + "\n" + tail[1..]
  {
  }

  lemma {:induction false} FindReads(raw: string, rest: seq<string>, key: string, tail: string, section: string)
    requires Trim(raw) == key + "=" + tail && !IsIgnored(Trim(raw)) && !IsSectionLine(Trim(raw))
    requires IndexOf(Trim(raw), '=') == |key| && Trim(key) == key
    ensures Find([raw] + rest, section, section, key) == Some(Trim(tail))
  {
    hide Trim, IndexOf, IsIgnored, IsSectionLine;
    var line := key + "=" + tail;
    assert line[..|key|] == key && line[|key| + 1..] == tail;
  }

  // ------------------------------------------------------------------ Wi-Fi

  lemma {:induction false} SecurityFound(passphrase: Option<string>)
    ensures FindIn(Passphrase(passphrase), "Settings", "Security", "Passphrase") == TrimmedLine(passphrase)
  {
    hide Section, Pair, Find, Lines, Trim, FirstLine;
    if passphrase.None? {
      NothingLeft("Settings", "Security", "Passphrase");
    } else {
      var pair := Pair("Passphrase", passphrase.value);
      SkipBlank(Section("Security") + pair, "Settings", "Security", "Passphrase");
      EnterSection("Security", pair, "Settings", "Security", "Passphrase");
      ReadPair("Passphrase", passphrase.value, "", "Security");
      assert pair + "" == pair;
    }
  }

  function TrimmedLine(value: Option<string>): Option<string> {
    match value case None => None case Some(v) => Some(Trim(FirstLine(v)))
  }

  lemma {:induction false} WifiPassphraseFound(c: Connection)
    ensures FindIn(WifiText(c), "", "Security", "Passphrase") == TrimmedLine(c.Passphrase())
  {
    hide Section, Pair, Passphrase, Find, Lines, Trim, FirstLine;
    var security := Passphrase(c.Passphrase());
    var hidden := if c.IsHidden() then Pair("Hidden", "true") else "";
    var auto := if c.Autoconnect() then "true" else "false";
    EnterSection("Settings", Pair("AutoConnect", auto) + (hidden + security), "", "Security", "Passphrase");
    SkipPair("AutoConnect", auto, hidden + security, "Settings", "Security", "Passphrase");
    if c.IsHidden() {
      SkipPair("Hidden", "true", security, "Settings", "Security", "Passphrase");
    } else {
      assert hidden + security == security;
    }
    SecurityFound(c.Passphrase());
  }

  lemma {:induction false} WifiNameSplits(dir: string, ssid: string, extension: string)
    requires |extension| > 2 && forall i :: 0 <= i < |extension| ==> IsAlnum(extension[i])
    ensures var stem := EncodeIwdName(ssid);
            && FileName(Join(dir, stem + ("." + extension))) == Some(stem + ("." + extension))
            && Extension(stem + ("." + extension)) == (if ssid == "" then None else Some(extension))
            && FileStem(stem + ("." + extension)) == if ssid == "" then "." + extension else stem
  {
    var stem := EncodeIwdName(ssid);
    IwdNameHasNoDotOrSlash(ssid);
    hide EncodeIwdName, Join, FileName, FileStem, Extension;
    assert stem + ("." + extension) == stem + "." + extension;
    FileNameOfJoin(dir, stem + "." + extension);
    SplitAtDot(stem, extension);
    if ssid == "" {
      assert stem + "." + extension == "." + extension;
    }
  }

  /** A Wi-Fi record with this name, saved under this path. */
  ghost predicate WifiAt(places: Places, c: Connection, ssid: string, path: string) {
    c.connectionType == WIFI && c.Ssid() == Some(ssid) && FilenameFor(places, c) == Ok(path)
  }

  /** The name a stored Wi-Fi profile is read with. */
  function LoadedName(c: Connection, ssid: string): string {
    if ssid == "" then WifiExtension(c) else ssid
  }

  lemma {:induction false} WifiStem(ssid: string, extension: string)
    ensures SsidOfStem(if ssid == "" then "." + extension else EncodeIwdName(ssid))
         == Ok(if ssid == "" then "." + extension else ssid)
  {
    IwdNameRoundTrip(ssid);
  }

  lemma {:induction false} WifiNameLoads(places: Places, c: Connection, ssid: string, path: string, contents: string)
    requires WifiAt(places, c, ssid, path)
    ensures LoadConnection(places, path, contents)
         == Ok(LoadedWifi(places, path, LoadedName(c, ssid), FindIn(contents, "", "Security", "Passphrase")))
  {
    var extension := if c.Passphrase().Some? then "psk" else "open";
    assert WifiExtension(c) == "." + extension && extension != "network";
    hide EncodeIwdName, Join, FileName, FileStem, Extension, SsidOfStem, Find, Lines, WifiExtension;
    WifiNameSplits(places.iwdDir, ssid, extension);
    WifiStem(ssid, extension);
  }

  /** What a stored Wi-Fi profile loads as, for every record. */
  lemma {:induction false} WifiLoads(places: Places, c: Connection, ssid: string, path: string)
    requires WifiAt(places, c, ssid, path)
    ensures LoadConnection(places, path, WifiText(c))
         == Ok(LoadedWifi(places, path, LoadedName(c, ssid), TrimmedLine(c.Passphrase())))
  {
    hide LoadConnection, WifiText, Find, Lines, LoadedWifi, FilenameFor;
    WifiNameLoads(places, c, ssid, path, WifiText(c));
    WifiPassphraseFound(c);
  }

  lemma {:induction false} LoadedWifiReads(places: Places, path: string, ssid: string, passphrase: Option<string>)
    ensures var r := LoadedWifi(places, path, ssid, passphrase);
            r.Ssid() == Some(ssid) && r.Passphrase() == passphrase && r.Autoconnect() && !r.IsHidden()
  {
    Utf8RoundTrip(ssid);
  }

  predicate Recoverable(value: Option<string>) {
    value.Some? ==> '\n' !in value.value && IsTrimmed(value.value)
  }

  lemma {:induction false} TrimmedLineIff(value: Option<string>)
    ensures TrimmedLine(value) == value <==> Recoverable(value)
    ensures TrimmedLine(TrimmedLine(value)) == TrimmedLine(value)
  {
    if value.Some? {
      RecoveredIff(value.value);
      TrimmedLineAgain(value.value);
    }
  }

  /** The SSID comes back exactly when it is not empty; the passphrase comes back exactly when it
      is trimmed and has no line feed, and its absence always does. Autoconnect becomes true and
      the network is no longer hidden. */
  lemma {:induction false} WifiRoundTrip(places: Places, c: Connection, ssid: string, path: string)
    requires WifiAt(places, c, ssid, path)
    ensures var loaded := LoadConnection(places, path, WifiText(c));
            && loaded.Ok? && loaded.value.filename == path
            && loaded.value.Autoconnect() && !loaded.value.IsHidden()
            && (loaded.value.Ssid() == c.Ssid() <==> ssid != "")
            && (loaded.value.Passphrase() == c.Passphrase() <==> Recoverable(c.Passphrase()))
  {
    hide LoadConnection, WifiText, FilenameFor, TrimmedLine, Recoverable;
    WifiLoads(places, c, ssid, path);
    LoadedWifiReads(places, path, LoadedName(c, ssid), TrimmedLine(c.Passphrase()));
    TrimmedLineIff(c.Passphrase());
  }

  /** Saving a loaded Wi-Fi profile writes the same file, and loading that again changes nothing:
      one round trip is the normal form. */
  lemma {:induction false} SecondWifiRoundTrip(places: Places, c: Connection, ssid: string, path: string)
    requires WifiAt(places, c, ssid, path) && ssid != ""
    ensures var once := LoadedWifi(places, path, ssid, TrimmedLine(c.Passphrase()));
            && LoadConnection(places, path, WifiText(c)) == Ok(once)
            && FilenameFor(places, once) == Ok(path)
            && LoadConnection(places, path, WifiText(once)) == Ok(once)
  {
    var once := LoadedWifi(places, path, ssid, TrimmedLine(c.Passphrase()));
    WifiLoads(places, c, ssid, path);
    LoadedWifiReads(places, path, ssid, TrimmedLine(c.Passphrase()));
    assert WifiAt(places, once, ssid, path) by {
      hide LoadConnection, WifiText;
    }
    hide LoadConnection, WifiText, FilenameFor, LoadedWifi, TrimmedLine;
    WifiLoads(places, once, ssid, path);
    TrimmedLineIff(c.Passphrase());
  }

  lemma {:induction false} TrimmedLineAgain(s: string)
    ensures Trim(FirstLine(Trim(FirstLine(s)))) == Trim(FirstLine(s))
  {
    TrimIsTrimmed(FirstLine(s));
    assert '\n' !in FirstLine(s);
    RecoveredIff(Trim(FirstLine(s)));
  }

  // ------------------------------------------------------------------ wired and netdev

  lemma {:induction false} WiredNameFound(c: Connection)
    ensures FindIn(WiredText(c), "", "Match", "Name")
         == Some(match c.InterfaceName() case None => "*" case Some(name) => Trim(FirstLine(name)))
  {
    hide Section, Pair, Find, Lines, Trim, FirstLine;
    var name := match c.InterfaceName() case Some(n) => n case None => "*";
    var rest := "\n" + (Section("Network") + Pair("DHCP", "yes"));
    EnterSection("Match", Pair("Name", name) + rest, "", "Match", "Name");
    ReadPair("Name", name, rest, "Match");
    RecoveredIff("*");
  }

  lemma {:induction false} LastSegmentOfPrefixed(dir: string, uuid: string)
    requires uuid == "" || uuid[|uuid| - 1] != '/'
    ensures LastSegment(Join(dir, PREFIX + uuid)) != ""
    ensures '/' !in uuid ==> LastSegment(Join(dir, PREFIX + uuid)) == PREFIX + uuid
  {
    var whole := Join(dir, PREFIX + uuid);
    assert whole[|whole| - 1] != '/';
    if '/' !in uuid {
      LastSegmentOfJoin(dir, PREFIX + uuid);
    }
  }

  /** A name under a path that already ends in a name. */
  lemma {:induction false} ExtendedNameSplits(whole: string, extension: string)
    requires LastSegment(whole) != ""
    requires |extension| > 2 && forall i :: 0 <= i < |extension| ==> IsAlnum(extension[i])
    ensures var stem := LastSegment(whole);
            && FileName(whole + ("." + extension)) == Some(stem + ("." + extension))
            && Extension(stem + ("." + extension)) == Some(extension)
            && FileStem(stem + ("." + extension)) == stem
  {
    hide LastSegment, FileStem, Extension;
    var stem := LastSegment(whole);
    LastSegmentKeepsTail(whole, "." + extension);
    assert stem + ("." + extension) == stem + "." + extension;
    SplitAtDot(stem, extension);
  }

  lemma {:induction false} NetworkPath(places: Places, c: Connection, extension: string)
    requires c.connectionType != WIFI && NetworkExtension(c) == "." + extension
    ensures FilenameFor(places, c) == Ok(Join(places.networkDir, PREFIX + c.uuid) + ("." + extension))
  {
    JoinTail(places.networkDir, PREFIX + c.uuid, "." + extension);
  }

  lemma {:induction false} JoinTail(dir: string, a: string, b: string)
    ensures Join(dir, a + b) == Join(dir, a) + b
  {
    if dir == "" || dir[|dir| - 1] == '/' {
      assert dir + (a + b) == (dir + a) + b;
    } else {
      assert dir + "/" + (a + b) == (dir + "/" + a) + b;
    }
  }

  lemma {:induction false} NetworkFileLoads(places: Places, path: string, name: string, contents: string)
    requires FileName(path) == Some(name) && Extension(name) == Some("network")
    ensures LoadConnection(places, path, contents)
         == Ok(LoadedWired(path, match FindIn(contents, "", "Match", "Name") case Some(n) => n case None => "*"))
  {
    hide FileName, Extension, Find, Lines, SsidOfStem, FileStem, LoadedWired, LoadedWifi;
  }

  lemma {:induction false} WiredName(places: Places, c: Connection, path: string)
    requires c.connectionType != WIFI && !IsNetdev(c) && FilenameFor(places, c) == Ok(path)
    requires c.uuid == "" || c.uuid[|c.uuid| - 1] != '/'
    ensures FileName(path).Some? && Extension(FileName(path).value) == Some("network")
  {
    hide Join, LastSegment, FileName, Extension, FilenameFor, IsNetdev, FileStem;
    var whole := Join(places.networkDir, PREFIX + c.uuid);
    NetworkPath(places, c, "network");
    LastSegmentOfPrefixed(places.networkDir, c.uuid);
    hide NetworkExtension;
    ExtendedNameSplits(whole, "network");
  }

  lemma {:induction false} WiredNameLoads(places: Places, c: Connection, path: string, contents: string)
    requires c.connectionType != WIFI && !IsNetdev(c) && FilenameFor(places, c) == Ok(path)
    requires c.uuid == "" || c.uuid[|c.uuid| - 1] != '/'
    ensures LoadConnection(places, path, contents)
         == Ok(LoadedWired(path, match FindIn(contents, "", "Match", "Name") case Some(n) => n case None => "*"))
  {
    WiredName(places, c, path);
    hide Join, LastSegment, FileName, Extension, FilenameFor, Find, Lines, IsNetdev, LoadConnection, LoadedWired;
    NetworkFileLoads(places, path, FileName(path).value, contents);
  }

  predicate EndsInSlash(uuid: string) {
    uuid != "" && uuid[|uuid| - 1] == '/'
  }

  lemma {:induction false} EmptyEnd(dir: string, name: string)
    requires name != "" && name[|name| - 1] == '/'
    ensures LastSegment(Join(dir, name)) == ""
  {
    var path := Join(dir, name);
    assert path[|path| - 1] == name[|name| - 1];
    hide Join;
  }

  lemma {:induction false} LastOfTail(head: string, tail: string)
    requires tail != ""
    ensures (head + tail)[|head + tail| - 1] == tail[|tail| - 1]
  {
  }

  lemma {:induction false} SlashedEnd(dir: string, uuid: string)
    requires EndsInSlash(uuid)
    ensures LastSegment(Join(dir, PREFIX + uuid)) == ""
  {
    hide LastSegment, Join;
    LastOfTail(PREFIX, uuid);
    EmptyEnd(dir, PREFIX + uuid);
  }

  /** A file whose whole name is an extension has none. */
  lemma {:induction false} SlashedName(dir: string, uuid: string, extension: string)
    requires EndsInSlash(uuid) && |extension| > 2 && forall i :: 0 <= i < |extension| ==> IsAlnum(extension[i])
    ensures var path := Join(dir, PREFIX + uuid) + ("." + extension);
            && FileName(path) == Some("." + extension)
            && Extension("." + extension) == None && FileStem("." + extension) == "." + extension
  {
    hide Join, LastSegment, FileStem, Extension;
    SlashedEnd(dir, uuid);
    SplitAtDot("", extension);
    var whole := Join(dir, PREFIX + uuid);
    LastSegmentKeepsTail(whole, "." + extension);
    assert "" + ("." + extension) == "." + extension;
  }

  lemma {:induction false} SlashedWiredLoads(places: Places, c: Connection, path: string, contents: string)
    requires c.connectionType != WIFI && !IsNetdev(c) && FilenameFor(places, c) == Ok(path) && EndsInSlash(c.uuid)
    ensures LoadConnection(places, path, contents)
         == Ok(LoadedWifi(places, path, "." + "network", FindIn(contents, "", "Security", "Passphrase")))
  {
    hide Join, FileName, Extension, FileStem, FilenameFor, IsNetdev, Find, Lines, LastSegment;
    NetworkPath(places, c, "network");
    SlashedName(places.networkDir, c.uuid, "network");
    hide NetworkExtension;
  }

  /** A wired profile is read back as one exactly when its uuid does not end in a slash. The interface
      name then comes back exactly when it is trimmed and has no line feed, and a missing one is read
      as a star. */
  lemma {:induction false} WiredRoundTrip(places: Places, c: Connection, path: string)
    requires c.connectionType != WIFI && !IsNetdev(c) && FilenameFor(places, c) == Ok(path)
    ensures var loaded := LoadConnection(places, path, WiredText(c));
            && loaded.Ok? && loaded.value.filename == path && loaded.value.Autoconnect()
            && (loaded.value.connectionType == ETHERNET <==> !EndsInSlash(c.uuid))
            && (!EndsInSlash(c.uuid) && c.InterfaceName().None? ==> loaded.value.InterfaceName() == Some("*"))
            && (!EndsInSlash(c.uuid) && c.InterfaceName().Some? ==>
                  (loaded.value.InterfaceName() == c.InterfaceName() <==> Recoverable(c.InterfaceName())))
  {
    hide WiredText, FilenameFor, Recoverable, Find, Lines, Trim, FirstLine, LoadConnection, IsNetdev;
    if EndsInSlash(c.uuid) {
      SlashedWiredLoads(places, c, path, WiredText(c));
      LoadedWifiReads(places, path, "." + "network", FindIn(WiredText(c), "", "Security", "Passphrase"));
    } else {
      WiredNameLoads(places, c, path, WiredText(c));
      WiredNameFound(c);
      TrimmedLineIff(c.InterfaceName());
      var found := if c.InterfaceName().None? then "*" else TrimmedLine(c.InterfaceName()).value;
      assert LoadConnection(places, path, WiredText(c)) == Ok(LoadedWired(path, found));
    }
  }

  /** Whatever the uuid holds, a `.netdev` file is read as Wi-Fi, under the end of its path. */
  lemma {:induction false} NetdevNameLoads(places: Places, path: string, uuid: string, contents: string)
    requires path == Join(places.networkDir, PREFIX + uuid) + ("." + "netdev")
    ensures var end := LastSegment(Join(places.networkDir, PREFIX + uuid));
            var ssid := SsidOfStem(if end == "" then "." + "netdev" else end);
            LoadConnection(places, path, contents)
            == match ssid
               case Ok(name) => Ok(LoadedWifi(places, path, name, FindIn(contents, "", "Security", "Passphrase")))
               case Err(message) => Err(message)
  {
    hide Join, LastSegment, FileName, Extension, FileStem, Find, Lines, SsidOfStem;
    if EndsInSlash(uuid) {
      SlashedName(places.networkDir, uuid, "netdev");
      SlashedEnd(places.networkDir, uuid);
    } else {
      LastSegmentOfPrefixed(places.networkDir, uuid);
      ExtendedNameSplits(Join(places.networkDir, PREFIX + uuid), "netdev");
    }
  }

  /** A virtual-device profile is never read back as what it was: if it loads, it is a Wi-Fi network.
      With a uuid that has no slash it loads, named after its file, and it is an open network unless
      a line feed in the interface name makes room for a passphrase. */
  lemma {:induction false} NetdevLoadsAsWifi(places: Places, c: Connection, path: string, text: string)
    requires IsNetdev(c) && NetdevText(c) == Ok(text) && FilenameFor(places, c) == Ok(path)
    ensures var loaded := LoadConnection(places, path, text);
            var passphrase := FindIn(text, "", "Security", "Passphrase");
            && (loaded.Ok? ==> loaded.value.connectionType == WIFI)
            && ('/' !in c.uuid ==> loaded == Ok(LoadedWifi(places, path, PREFIX + c.uuid, passphrase)))
            && (c.InterfaceName().Some? && ('\n' !in c.InterfaceName().value ==> passphrase == None))
  {
    assert NetworkExtension(c) == "." + "netdev" && c.connectionType != WIFI && c.InterfaceName().Some?;
    if '\n' !in c.InterfaceName().value {
      NetdevHasNoPassphrase(c);
    }
    hide Join, FilenameFor, Find, Lines, NetdevText, LoadConnection, NetdevKind, SsidOfStem, LastSegment;
    NetworkPath(places, c, "netdev");
    NetdevNameLoads(places, path, c.uuid, text);
    if '/' !in c.uuid {
      LastSegmentOfPrefixed(places.networkDir, c.uuid);
      PrefixedStem(c.uuid);
    }
  }

  lemma {:induction false} PrefixedStem(uuid: string)
    ensures SsidOfStem(PREFIX + uuid) == Ok(PREFIX + uuid)
  {
  }

  lemma {:induction false} NetdevHasNoPassphrase(c: Connection)
    requires IsNetdev(c) && c.InterfaceName().Some? && '\n' !in c.InterfaceName().value
    ensures NetdevText(c).Ok? && FindIn(NetdevText(c).value, "", "Security", "Passphrase") == None
  {
    hide Section, Pair, Find, Lines;
    NothingLeft("NetDev", "Security", "Passphrase");
    var name, kind := c.InterfaceName().value, NetdevKind(c.connectionType).value;
    EnterSection("NetDev", Pair("Name", name) + Pair("Kind", kind), "", "Security", "Passphrase");
    SkipPair("Name", name, Pair("Kind", kind), "NetDev", "Security", "Passphrase");
    SkipPair("Kind", kind, "", "NetDev", "Security", "Passphrase");
    assert Pair("Kind", kind) + "" == Pair("Kind", kind);
  }

  /** A loaded wired profile is never saved to the file it came from: its uuid carries the whole
      path, so the new name is longer. */
  lemma {:induction false} LoadedWiredMovesWhenSaved(places: Places, path: string, contents: string)
    requires LoadConnection(places, path, contents).Ok?
    requires LoadConnection(places, path, contents).value.connectionType == ETHERNET
    ensures FilenameFor(places, LoadConnection(places, path, contents).value).value != path
  {
    var c := LoadConnection(places, path, contents).value;
    JoinInjective(places.networkDir, PREFIX + c.uuid + NetworkExtension(c), "");
  }
}
