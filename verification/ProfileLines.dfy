/** What is written in a profile file and under which name, and what a record read from one says. */
module ProfileLines {
  import opened Text
  import opened RuntimeState
  import opened ProfileText
  import opened ProfileRoundTrips

  /** A pair of another key in the section that is read. */
  lemma {:induction false} PassPair(key: string, value: string, rest: string, section: string, wanted: string)
    requires IsWord(key) && '\n' !in value && key != wanted
    ensures FindIn(Pair(key, value) + rest, section, section, wanted) == FindIn(rest, section, section, wanted)
  {
    hide Find, Lines, Trim, TrimEnd, IsIgnored, IsSectionLine;
    var line := key + "=" + value;
    PairLine(key, value);
    LinesOfLine(line, rest);
    assert Pair(key, value) + rest == line + "\n" + rest;
    SplitPair(key, TrimEnd(value));
    FindPasses(DropCarriageReturn(line), Lines(rest), key, TrimEnd(value), section, wanted);
  }

  lemma {:induction false} FindPasses(raw: string, rest: seq<string>, key: string, tail: string, section: string,
                                      wanted: string)
    requires Trim(raw) == key + "=" + tail && !IsIgnored(Trim(raw)) && !IsSectionLine(Trim(raw))
    requires IndexOf(Trim(raw), '=') == |key| && Trim(key) == key && key != wanted
    ensures Find([raw] + rest, section, section, wanted) == Find(rest, section, section, wanted)
  {
    hide Trim, IndexOf, IsIgnored, IsSectionLine;
    assert (key + "=" + tail)[..|key|] == key;
    assert ([raw] + rest)[1..] == rest;
  }

  /** A value of one trimmed line comes back as it is. */
  lemma {:induction false} ReadsAsWritten(key: string, value: string, rest: string, section: string)
    requires IsWord(key) && IsTrimmed(value) && '\n' !in value
    ensures FindIn(Pair(key, value) + rest, section, section, key) == Some(value)
  {
    hide Find, Lines, Trim, FirstLine, Pair;
    ReadPair(key, value, rest, section);
    RecoveredIff(value);
  }

  lemma {:induction false} NotInSecurity(passphrase: Option<string>)
    requires passphrase.Some? ==> '\n' !in passphrase.value
    ensures FindIn(Passphrase(passphrase), "Settings", "Settings", "Hidden") == None
  {
    hide Section, Pair, Find, Lines, Trim;
    if passphrase.None? {
      NothingLeft("Settings", "Settings", "Hidden");
    } else {
      var pair := Pair("Passphrase", passphrase.value);
      SkipBlank(Section("Security") + pair, "Settings", "Settings", "Hidden");
      EnterSection("Security", pair, "Settings", "Settings", "Hidden");
      SkipPair("Passphrase", passphrase.value, "", "Security", "Settings", "Hidden");
      assert pair + "" == pair;
      NothingLeft("Security", "Settings", "Hidden");
    }
  }

  /** A Wi-Fi profile says whether to connect by itself and, if so, that the network is hidden. */
  lemma {:induction false} WifiLines(c: Connection)
    ensures FindIn(WifiText(c), "", "Settings", "AutoConnect")
         == Some(if c.SettingFlag("connection", "autoconnect") then "true" else "false")
    ensures c.SettingFlag("802-11-wireless", "hidden") ==>
              FindIn(WifiText(c), "", "Settings", "Hidden") == Some("true")
    ensures !c.SettingFlag("802-11-wireless", "hidden") && (c.Passphrase().Some? ==> '\n' !in c.Passphrase().value) ==>
              FindIn(WifiText(c), "", "Settings", "Hidden") == None
  {
    hide Section, Pair, Passphrase, Find, Lines, Trim;
    var security := Passphrase(c.Passphrase());
    var hidden := if c.IsHidden() then Pair("Hidden", "true") else "";
    var auto := if c.Autoconnect() then "true" else "false";
    var rest := hidden + security;
    EnterSection("Settings", Pair("AutoConnect", auto) + rest, "", "Settings", "AutoConnect");
    EnterSection("Settings", Pair("AutoConnect", auto) + rest, "", "Settings", "Hidden");
    ReadsAsWritten("AutoConnect", auto, rest, "Settings");
    PassPair("AutoConnect", auto, rest, "Settings", "Hidden");
    if c.IsHidden() {
      ReadsAsWritten("Hidden", "true", security, "Settings");
    } else if c.Passphrase().Some? ==> '\n' !in c.Passphrase().value {
      NotInSecurity(c.Passphrase());
      assert hidden + security == security;
    }
  }

  /** A wired profile matches the interface that is named, or any, and asks for DHCP. */
  lemma {:induction false} WiredLines(c: Connection)
    ensures FindIn(WiredText(c), "", "Match", "Name")
         == Some(match TextSetting(c.settings, "connection", "interface-name")
                 case Some(name) => Trim(FirstLine(name))
                 case None => "*")
    ensures (c.InterfaceName().Some? ==> '\n' !in c.InterfaceName().value) ==>
              FindIn(WiredText(c), "", "Network", "DHCP") == Some("yes")
  {
    WiredNameFound(c);
    hide Section, Pair, Find, Lines, Trim;
    var name := match c.InterfaceName() case Some(n) => n case None => "*";
    if '\n' !in name {
      var pair := Pair("DHCP", "yes");
      var network := Section("Network") + pair;
      EnterSection("Match", Pair("Name", name) + ("\n" + network), "", "Network", "DHCP");
      SkipPair("Name", name, "\n" + network, "Match", "Network", "DHCP");
      SkipBlank(network, "Match", "Network", "DHCP");
      EnterSection("Network", pair, "Match", "Network", "DHCP");
      assert pair + "" == pair;
      ReadsAsWritten("DHCP", "yes", "", "Network");
    }
  }

  /** The types that networkd makes virtual devices of. */
  predicate IsVirtual(kind: string) {
    kind in {"bond", "bridge", "dummy", "hsr", "ipvlan", "macvlan", "team", "tun", "veth", "vlan", "vrf", "vxlan",
             "wireguard", "6lowpan"}
  }

  lemma {:induction false} VirtualKinds(kind: string)
    ensures NetdevKind(kind).Some? <==> IsVirtual(kind)
    ensures IsVirtual(kind) ==> NetdevKind(kind) == Some(if kind == "6lowpan" then "lowpan" else kind)
    ensures IsVirtual(kind) ==> kind != "802-11-wireless" && kind != "802-3-ethernet"
  {
  }

  lemma {:induction false} KindIsOneLine(kind: string)
    requires NetdevKind(kind).Some?
    ensures IsTrimmed(NetdevKind(kind).value) && '\n' !in NetdevKind(kind).value
  {
    var k := NetdevKind(kind).value;
    assert k in {"bond", "bridge", "dummy", "hsr", "ipvlan", "macvlan", "team", "tun", "veth", "vlan", "vrf", "vxlan",
                 "wireguard", "lowpan"};
  }

  lemma {:induction false} NameAndKind(name: string, kind: string)
    requires IsTrimmed(kind) && '\n' !in kind
    ensures var text := Section("NetDev") + (Pair("Name", name) + Pair("Kind", kind));
            && FindIn(text, "", "NetDev", "Name") == Some(Trim(FirstLine(name)))
            && ('\n' !in name ==> FindIn(text, "", "NetDev", "Kind") == Some(kind))
  {
    hide Section, Pair, Find, Lines, Trim, FirstLine;
    var pair := Pair("Kind", kind);
    EnterSection("NetDev", Pair("Name", name) + pair, "", "NetDev", "Name");
    EnterSection("NetDev", Pair("Name", name) + pair, "", "NetDev", "Kind");
    ReadPair("Name", name, pair, "NetDev");
    if '\n' !in name {
      PassPair("Name", name, pair, "NetDev", "Kind");
      assert pair + "" == pair;
      ReadsAsWritten("Kind", kind, "", "NetDev");
    }
  }

  /** A virtual-device profile names the interface and the kind of device, which is the type but for 6lowpan. */
  lemma {:induction false} NetdevLines(c: Connection)
    requires IsVirtual(c.connectionType)
    ensures NetdevText(c).Ok? <==> c.InterfaceName().Some?
    ensures NetdevText(c).Ok? ==>
              FindIn(NetdevText(c).value, "", "NetDev", "Name") == Some(Trim(FirstLine(c.InterfaceName().value)))
    ensures NetdevText(c).Ok? && '\n' !in c.InterfaceName().value ==>
              FindIn(NetdevText(c).value, "", "NetDev", "Kind")
                == Some(if c.connectionType == "6lowpan" then "lowpan" else c.connectionType)
  {
    VirtualKinds(c.connectionType);
    KindIsOneLine(c.connectionType);
    if c.InterfaceName().Some? {
      NameAndKind(c.InterfaceName().value, NetdevKind(c.connectionType).value);
    }
    hide Section, Pair, FindIn, Trim, FirstLine, NetdevKind, IsVirtual;
  }

  /** Which of the three is printed, and where it goes: a Wi-Fi profile under the encoded SSID, by whether it has
      a passphrase; any other under its uuid, by whether it is a virtual device. */
  lemma {:induction false} ProfilesGo(places: Places, c: Connection)
    ensures c.connectionType == "802-11-wireless" ==>
              var hasKey := TextSetting(c.settings, "802-11-wireless-security", "psk").Some?;
              && ProfileOf(c) == Ok(WifiText(c))
              && (FilenameFor(places, c).Ok? <==> c.Ssid().Some?)
              && (c.Ssid().Some? ==>
                    FilenameFor(places, c)
                    == Ok(Join(places.iwdDir, EncodeIwdName(c.Ssid().value) + (if hasKey then ".psk" else ".open"))))
    ensures c.connectionType != "802-11-wireless" ==>
              && ProfileOf(c) == (if IsVirtual(c.connectionType) then NetdevText(c) else Ok(WiredText(c)))
              && FilenameFor(places, c) == Ok(Join(places.networkDir, "90-nm-dbus-proxy-" + c.uuid
                   + (if IsVirtual(c.connectionType) then ".netdev" else ".network")))
  {
    VirtualKinds(c.connectionType);
    hide NetdevKind, IsVirtual, NetdevText, WiredText, WifiText, EncodeIwdName, Join, FromUtf8;
  }

  /** A name of letters, digits, blanks, underscores and dashes is kept; any other becomes an equals sign and two
      lower-case hex digits for each byte. */
  lemma {:induction false} IwdNameSays(ssid: string)
    ensures (forall c :: c in ssid ==> IsAlnum(c) || c == ' ' || c == '_' || c == '-') ==> EncodeIwdName(ssid) == ssid
    ensures !(forall c :: c in ssid ==> IsAlnum(c) || c == ' ' || c == '_' || c == '-') ==>
              var name := EncodeIwdName(ssid);
              && |name| == 1 + 2 * |Utf8(ssid)| && name[0] == '='
              && forall i :: 1 <= i < |name| ==> '0' <= name[i] <= '9' || 'a' <= name[i] <= 'f'
  {
    HexIsLower(Utf8(ssid));
    hide Utf8, HexOf;
  }

  lemma {:induction false} HexIsLower(bytes: seq<byte>)
    ensures |HexOf(bytes)| == 2 * |bytes|
    ensures forall i :: 0 <= i < |HexOf(bytes)| ==> '0' <= HexOf(bytes)[i] <= '9' || 'a' <= HexOf(bytes)[i] <= 'f'
  {
    if bytes != [] {
      HexIsLower(bytes[1..]);
      var pair, rest := Hex2(bytes[0]), HexOf(bytes[1..]);
      assert HexOf(bytes) == pair + rest && |pair| == 2;
    }
  }

  /** The character is the digit for this number, in either case. */
  predicate IsHexFor(c: char, n: nat) {
    || (n < 10 && c as int == '0' as int + n)
    || (10 <= n < 16 && (c as int == 'a' as int + n - 10 || c as int == 'A' as int + n - 10))
  }

  /** A byte is read from two hex digits of either case, from one, or from one after a plus sign. */
  lemma {:induction false} HexIsRead(high: char, low: char, h: nat, l: nat)
    requires IsHexFor(high, h) && IsHexFor(low, l)
    ensures FromRadix16([high, low]) == Some(16 * h + l)
    ensures FromRadix16([low]) == Some(l) && FromRadix16(['+', low]) == Some(l)
  {
  }

  // ------------------------------------------------------------------ line by line

  predicate IsComment(line: string) {
    line == "" || line[0] == '#' || line[0] == ';'
  }

  predicate IsHeader(line: string) {
    |line| > 0 && line[0] == '[' && line[|line| - 1] == ']'
  }

  /** Blank lines and comments are passed over, and so is every line of another section that is no header. */
  lemma {:induction false} LinesPassedOver(raw: string, rest: seq<string>, current: string, section: string,
                                           key: string)
    requires IsComment(Trim(raw)) || (!IsHeader(Trim(raw)) && current != section)
    ensures Find([raw] + rest, current, section, key) == Find(rest, current, section, key)
  {
    hide Trim;
    FindSkips(raw, rest, current, section, key);
  }

  /** A header changes the section, to what is left without brackets. */
  lemma {:induction false} HeaderRead(raw: string, rest: seq<string>, current: string, section: string, key: string)
    requires IsHeader(Trim(raw))
    ensures Find([raw] + rest, current, section, key) == Find(rest, TrimBrackets(Trim(raw)), section, key)
  {
    hide Trim, TrimBrackets;
    FindEnters(raw, rest, current, section, key);
  }

  lemma {:induction false} SplitAtEquals(before: string, after: string)
    requires '=' !in before
    ensures var line := before + "=" + after;
            && IndexOf(line, '=') == |before| && line[..|before|] == before && line[|before| + 1..] == after
  {
    var line := before + "=" + after;
    assert line[|before|] == '=' && forall k :: 0 <= k < |before| ==> line[k] == before[k] && line[k] in before;
  }

  /** In the section that is read, the first line with the key decides, blanks around key and value aside. */
  lemma {:induction false} LineRead(raw: string, rest: seq<string>, section: string, key: string, before: string,
                                    after: string)
    requires !IsComment(Trim(raw)) && !IsHeader(Trim(raw))
    requires Trim(raw) == before + "=" + after && '=' !in before
    ensures Find([raw] + rest, section, section, key)
         == if Trim(before) == key then Some(Trim(after)) else Find(rest, section, section, key)
  {
    hide Trim, IndexOf, Find;
    SplitAtEquals(before, after);
    FindDecides(raw, rest, section, key);
  }

  lemma {:induction false} FindDecides(raw: string, rest: seq<string>, section: string, key: string)
    requires !IsIgnored(Trim(raw)) && !IsSectionLine(Trim(raw)) && IndexOf(Trim(raw), '=') < |Trim(raw)|
    ensures var line, i := Trim(raw), IndexOf(Trim(raw), '=');
            Find([raw] + rest, section, section, key)
            == if Trim(line[..i]) == key then Some(Trim(line[i + 1..])) else Find(rest, section, section, key)
  {
    hide Trim, IndexOf, IsIgnored, IsSectionLine, TrimBrackets;
    var lines := [raw] + rest;
    assert lines[0] == raw && lines[1..] == rest;
  }

  /** A line there without an equals sign ends the search, whatever follows. */
  lemma {:induction false} LineWithoutEquals(raw: string, rest: seq<string>, section: string, key: string)
    requires !IsComment(Trim(raw)) && !IsHeader(Trim(raw)) && '=' !in Trim(raw)
    ensures Find([raw] + rest, section, section, key) == None
  {
    assert IndexOf(Trim(raw), '=') == |Trim(raw)|;
    hide Trim, IndexOf;
  }

  /** A stem is its own SSID unless it starts with an equals sign; that alone stands for the empty one. */
  lemma {:induction false} StemsSay(stem: string)
    ensures stem == "" || stem[0] != '=' ==> SsidOfStem(stem) == Ok(stem)
    ensures SsidOfStem("=") == Ok("")
  {
    assert "="[1..] == "";
  }

  /** A path that ends in two dots names no file. */
  lemma {:induction false} DotsNameNothing(dir: string)
    ensures FileName(dir + "/" + "..") == None && FileName("..") == None
  {
    LastSegmentAfterSlash(dir, "..");
    hide LastSegment;
    assert LastSegment("..") == ".." by {
      LastSegmentOfDots();
    }
  }

  lemma {:induction false} LastSegmentOfDots()
    ensures LastSegment("..") == ".."
  {
    assert ".."[..1] == ".";
    assert "."[..0] == "";
    assert LastSegment(".") == LastSegment("") + ['.'];
  }

  // ------------------------------------------------------------------ what is loaded

  predicate SaysText(c: Connection, group: string, key: string, text: string) {
    TextSetting(c.settings, group, key) == Some(text)
  }

  /** A record read from this file: the user's own, saved there, under a uuid made of the path. */
  predicate IsLoadedFrom(c: Connection, path: string) {
    && c.filename == path && c.origin == User && !c.unsaved
    && c.uuid == "imported-" + path && SaysText(c, "connection", "uuid", c.uuid)
    && SaysText(c, "connection", "type", c.connectionType) && c.SettingFlag("connection", "autoconnect")
  }

  lemma {:induction false} LoadedWiredSays(path: string, name: string)
    ensures var c := LoadedWired(path, name);
            && IsLoadedFrom(c, path) && c.connectionType == "802-3-ethernet"
            && SaysText(c, "connection", "interface-name", name) && SaysText(c, "connection", "id", name)
            && "802-3-ethernet" in c.settings
  {
  }

  lemma {:induction false} LoadedWifiSays(places: Places, path: string, ssid: string, passphrase: Option<string>)
    ensures var c := LoadedWifi(places, path, ssid, passphrase);
            && IsLoadedFrom(c, path) && c.connectionType == "802-11-wireless" && c.Ssid() == Some(ssid)
            && SaysText(c, "connection", "interface-name", places.defaultWifi) && SaysText(c, "connection", "id", ssid)
            && TextSetting(c.settings, "802-11-wireless-security", "psk") == passphrase
            && TextSetting(c.settings, "802-11-wireless-security", "key-mgmt")
               == (if passphrase.Some? then Some("wpa-psk") else None)
  {
    Utf8RoundTrip(ssid);
    hide Utf8, FromUtf8;
  }

  /** A file loads if it is there, is UTF-8 and has a name, and then either ends in `.network` or has a stem that is
      an SSID; it loads as wired in the first case and as Wi-Fi in the second, with what the reader finds in it. */
  lemma {:induction false} LoadsAs(places: Places, files: map<string, seq<byte>>, path: string)
    ensures var loaded := LoadFromPath(places, files, path);
            && (path !in files || FromUtf8(files[path]).None? || FileName(path).None? ==> loaded.Err?)
            && (path in files && FromUtf8(files[path]).Some? && FileName(path).Some? ==>
                  var text, name := FromUtf8(files[path]).value, FileName(path).value;
                  if Extension(name) == Some("network") then
                    var found := FindIn(text, "", "Match", "Name");
                    && loaded.Ok? && IsLoadedFrom(loaded.value, path)
                    && loaded.value.connectionType == "802-3-ethernet"
                    && SaysText(loaded.value, "connection", "interface-name", if found.Some? then found.value else "*")
                  else
                    var ssid := SsidOfStem(FileStem(name));
                    && (loaded.Ok? <==> ssid.Ok?)
                    && (loaded.Ok? ==>
                          && IsLoadedFrom(loaded.value, path) && loaded.value.connectionType == "802-11-wireless"
                          && loaded.value.Ssid() == Some(ssid.value)
                          && loaded.value.Passphrase() == FindIn(text, "", "Security", "Passphrase")))
  {
    if path in files && FromUtf8(files[path]).Some? && FileName(path).Some? {
      var text, name := FromUtf8(files[path]).value, FileName(path).value;
      if Extension(name) == Some("network") {
        var found := FindIn(text, "", "Match", "Name");
        LoadedWiredSays(path, if found.Some? then found.value else "*");
      } else if SsidOfStem(FileStem(name)).Ok? {
        LoadedWifiSays(places, path, SsidOfStem(FileStem(name)).value, FindIn(text, "", "Security", "Passphrase"));
      }
    }
    hide Find, Lines, FromUtf8, FileName, Extension, FileStem, SsidOfStem, LoadedWifi, LoadedWired, IsLoadedFrom;
  }
}
