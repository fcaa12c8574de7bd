/** Profile files: their names, the text that is written into them, and the reader
    that turns a file back into a connection. */
module ProfileText {
  import opened Text
  import opened RuntimeState

  /** Where profiles live, and the interface that a loaded Wi-Fi profile is put on. */
  datatype Places = Places(iwdDir: string, networkDir: string, defaultWifi: string)

  // ------------------------------------------------------------------ iwd names

  predicate IsPlain(c: char) {
    IsAlnum(c) || c == ' ' || c == '_' || c == '-'
  }

  function HexOf(bytes: seq<byte>): string {
    if bytes == [] then [] else Hex2(bytes[0]) + HexOf(bytes[1..])
  }

  function EncodeIwdName(ssid: string): string {
    if forall i :: 0 <= i < |ssid| ==> IsPlain(ssid[i]) then ssid else "=" + HexOf(Utf8(ssid))
  }

  function HexDigit(c: char): (r: Option<nat>)
    ensures r.Some? ==> r.value < 16
  {
    if '0' <= c <= '9' then Some(c as int - '0' as int)
    else if 'a' <= c <= 'f' then Some(c as int - 'a' as int + 10)
    else if 'A' <= c <= 'F' then Some(c as int - 'A' as int + 10)
    else None
  }

  /** `u8::from_str_radix(text, 16)` on one or two characters: a plus sign may come first. */
  function FromRadix16(text: string): Option<byte>
    requires 1 <= |text| <= 2
  {
    var low := HexDigit(text[|text| - 1]);
    if low.None? then None
    else if |text| == 1 || text[0] == '+' then Some(low.value)
    else
      match HexDigit(text[0])
      case None => None
      case Some(high) => Some(16 * high + low.value)
  }

  function HexChunk(chunk: seq<byte>): Option<byte> {
    match FromUtf8(chunk)
    case None => None
    case Some(text) => if 1 <= |text| <= 2 then FromRadix16(text) else None
  }

  /** `chunks(2)` of the encoded part, each read as one byte. */
  function HexBytes(encoded: seq<byte>): Option<seq<byte>> {
    if encoded == [] then Some([])
    else
      var n := if |encoded| == 1 then 1 else 2;
      match HexChunk(encoded[..n])
      case None => None
      case Some(b) => After([b], HexBytes(encoded[n..]))
  }

  function After(done: seq<byte>, rest: Option<seq<byte>>): Option<seq<byte>> {
    match rest case None => None case Some(bytes) => Some(done + bytes)
  }

  lemma {:induction false} AfterNothing(rest: Option<seq<byte>>)
    ensures After([], rest) == rest
  {
    if rest.Some? {
      assert [] + rest.value == rest.value;
    }
  }

  lemma {:induction false} AfterOne(done: seq<byte>, b: byte, rest: Option<seq<byte>>)
    ensures After(done, After([b], rest)) == After(done + [b], rest)
  {
    if rest.Some? {
      assert done + ([b] + rest.value) == done + [b] + rest.value;
    }
  }

  method DecodeHex(encoded: seq<byte>) returns (bytes: Option<seq<byte>>)
    ensures bytes == HexBytes(encoded)
  {
    var done: seq<byte> := [];
    var at := 0;
    AfterNothing(HexBytes(encoded));
    assert encoded[0..] == encoded;
    while at < |encoded|
      invariant 0 <= at <= |encoded|
      invariant HexBytes(encoded) == After(done, HexBytes(encoded[at..]))
    {
      var n := if at + 1 == |encoded| then 1 else 2;
      assert encoded[at..][..n] == encoded[at..at + n] && encoded[at..][n..] == encoded[at + n..];
      var value := HexChunk(encoded[at..at + n]);
      if value.None? {
        return None;
      }
      AfterOne(done, value.value, HexBytes(encoded[at + n..]));
      done := done + [value.value];
      at := at + n;
    }
    assert encoded[at..] == [] && done + [] == done;
    bytes := Some(done);
  }

  // ------------------------------------------------------------------ file names

  /** `PathBuf::join` with a relative name. */
  function Join(dir: string, name: string): string {
    if dir == "" || dir[|dir| - 1] == '/' then dir + name else dir + "/" + name
  }

  /** `Path::file_name`: trailing slashes and interior dots are not components. */
  function FileName(path: string): (r: Option<string>)
    ensures r.Some? ==> r.value != "" && '/' !in r.value
  {
    if path == "" then None
    else
      var last := LastSegment(path);
      if last == ".." || path == "." then None
      else if last == "" || last == "." then FileName(path[..|path| - 1])
      else Some(last)
  }

  /** The position of the last dot, or the length. */
  function LastDot(name: string): (i: nat)
    ensures i <= |name|
    ensures i < |name| ==> name[i] == '.'
    ensures forall j :: i < j < |name| ==> name[j] != '.'
    ensures i == |name| <==> '.' !in name
  {
    if '.' !in name then |name|
    else if name[|name| - 1] == '.' then |name| - 1
    else
      var front := name[..|name| - 1];
      assert name == front + [name[|name| - 1]];
      assert '.' in front;
      LastDot(front)
  }

  /** Everything before the last dot; a leading dot starts no extension. */
  function FileStem(name: string): string {
    var i := LastDot(name);
    if i == 0 then name else name[..i]
  }

  function Extension(name: string): Option<string> {
    var i := LastDot(name);
    if i == 0 || i == |name| then None else Some(name[i + 1..])
  }

  function NetdevKind(connectionType: string): Option<string> {
    if connectionType in {"bond", "bridge", "dummy", "hsr", "ipvlan", "macvlan", "team", "tun", "veth", "vlan", "vrf",
                          "vxlan", "wireguard"} then Some(connectionType)
    else if connectionType == "6lowpan" then Some("lowpan")
    else None
  }

  predicate IsNetdev(c: Connection) {
    c.connectionType !in {WIFI, ETHERNET} && NetdevKind(c.connectionType).Some?
  }

  const PREFIX := "90-nm-dbus-proxy-"

  function WifiExtension(c: Connection): string {
    if c.Passphrase().Some? then ".psk" else ".open"
  }

  function NetworkExtension(c: Connection): string {
    if IsNetdev(c) then ".netdev" else ".network"
  }

  function FilenameFor(places: Places, c: Connection): Result<string> {
    if c.connectionType == WIFI then
      match c.Ssid()
      case None => Err("Wi-Fi connection is missing SSID")
      case Some(ssid) => Ok(Join(places.iwdDir, EncodeIwdName(ssid) + WifiExtension(c)))
    else Ok(Join(places.networkDir, PREFIX + c.uuid + NetworkExtension(c)))
  }

  // ------------------------------------------------------------------ printing

  /** `[name]` on a line of its own. */
  function Section(name: string): string {
    "[" + name + "]\n"
  }

  /** `key=value` on a line of its own. */
  function Pair(key: string, value: string): string {
    key + "=" + value + "\n"
  }

  function Passphrase(passphrase: Option<string>): string {
    match passphrase
    case None => ""
    case Some(p) => "\n" + (Section("Security") + Pair("Passphrase", p))
  }

  function WifiText(c: Connection): string {
    var hidden := if c.IsHidden() then Pair("Hidden", "true") else "";
    Section("Settings") + (Pair("AutoConnect", if c.Autoconnect() then "true" else "false")
                           + (hidden + Passphrase(c.Passphrase())))
  }

  method WifiProfile(c: Connection) returns (text: string)
    ensures text == WifiText(c)
  {
    hide Section, Pair;
    var out := Section("Settings");
    out := out + Pair("AutoConnect", if c.Autoconnect() then "true" else "false");
    if c.IsHidden() {
      out := out + Pair("Hidden", "true");
    }
    var passphrase := c.Passphrase();
    if passphrase.Some? {
      out := out + ("\n" + Section("Security"));
      out := out + Pair("Passphrase", passphrase.value);
    }
    text := out;
  }

  function WiredText(c: Connection): string {
    var name := match c.InterfaceName() case Some(name) => name case None => "*";
    Section("Match") + (Pair("Name", name) + ("\n" + (Section("Network") + Pair("DHCP", "yes"))))
  }

  function NetdevText(c: Connection): Result<string> {
    match c.InterfaceName()
    case None => Err("networkd connection is missing interface-name")
    case Some(name) =>
      var kind := match NetdevKind(c.connectionType) case Some(k) => k case None => "dummy";
      Ok(Section("NetDev") + (Pair("Name", name) + Pair("Kind", kind)))
  }

  function ProfileOf(c: Connection): Result<string> {
    if c.connectionType == WIFI then Ok(WifiText(c))
    else if IsNetdev(c) then NetdevText(c)
    else Ok(WiredText(c))
  }

  // ------------------------------------------------------------------ reading

  predicate IsBracket(c: char) {
    c == '[' || c == ']'
  }

  /** `trim_matches(['[', ']'])` */
  function TrimBrackets(s: string): string {
    if s != [] && IsBracket(s[0]) then TrimBrackets(s[1..])
    else if s != [] && IsBracket(s[|s| - 1]) then TrimBrackets(s[..|s| - 1])
    else s
  }

  predicate IsIgnored(line: string) {
    line == "" || line[0] == '#' || line[0] == ';'
  }

  predicate IsSectionLine(line: string) {
    line != "" && line[0] == '[' && line[|line| - 1] == ']'
  }

  /** What the reader finds for a key of a section in the lines still to come, in section `current`. */
  function Find(lines: seq<string>, current: string, section: string, key: string): Option<string> {
    if lines == [] then None
    else
      var line, rest := Trim(lines[0]), lines[1..];
      if IsIgnored(line) then Find(rest, current, section, key)
      else if IsSectionLine(line) then Find(rest, TrimBrackets(line), section, key)
      else if current != section then Find(rest, current, section, key)
      else
        var i := IndexOf(line, '=');
        if i == |line| then None
        else if Trim(line[..i]) == key then Some(Trim(line[i + 1..]))
        else Find(rest, current, section, key)
  }

  method ParseNetworkValue(contents: string, section: string, key: string) returns (value: Option<string>)
    ensures value == Find(Lines(contents), "", section, key)
  {
    var lines := Lines(contents);
    var currentSection := "";
    for n := 0 to |lines|
      invariant Find(lines, "", section, key) == Find(lines[n..], currentSection, section, key)
    {
      assert lines[n..][0] == lines[n] && lines[n..][1..] == lines[n + 1..];
      var line := Trim(lines[n]);
      if IsIgnored(line) {
        continue;
      }
      if IsSectionLine(line) {
        currentSection := TrimBrackets(line);
        continue;
      }
      if currentSection != section {
        continue;
      }
      var i := IndexOf(line, '=');
      if i == |line| {
        return None;
      }
      if Trim(line[..i]) == key {
        return Some(Trim(line[i + 1..]));
      }
    }
    value := None;
  }

  function SsidOfStem(stem: string): Result<string> {
    if stem != "" && stem[0] == '=' then
      match HexBytes(Utf8(stem[1..]))
      case None => Err("invalid encoded SSID '" + stem + "'")
      case Some(bytes) =>
        match FromUtf8(bytes)
        case None => Err("the SSID is not UTF-8")
        case Some(ssid) => Ok(ssid)
    else Ok(stem)
  }

  function ImportedUuid(path: string): string {
    "imported-" + path
  }

  function LoadedWired(path: string, interfaceName: string): Connection {
    Connection(ETHERNET, path, User,
      map["connection" := map["id" := Text(interfaceName), "interface-name" := Text(interfaceName),
                              "type" := Text(ETHERNET), "uuid" := Text(ImportedUuid(path)),
                              "autoconnect" := Flag(true)],
          ETHERNET := map[]],
      false, ImportedUuid(path))
  }

  function LoadedWifi(places: Places, path: string, ssid: string, passphrase: Option<string>): Connection {
    var common: Settings :=
      map["connection" := map["id" := Text(ssid), "interface-name" := Text(places.defaultWifi),
                              "type" := Text(WIFI), "uuid" := Text(ImportedUuid(path)), "autoconnect" := Flag(true)],
          WIFI := map["ssid" := Bytes(Utf8(ssid))]];
    Connection(WIFI, path, User,
      match passphrase
        case None => common
        case Some(p) => common[SECURITY := map["key-mgmt" := Text("wpa-psk"), "psk" := Text(p)]],
      false, ImportedUuid(path))
  }

  function LoadConnection(places: Places, path: string, contents: string): Result<Connection> {
    var name := FileName(path);
    if name.Some? && Extension(name.value) == Some("network") then
      var found := Find(Lines(contents), "", "Match", "Name");
      Ok(LoadedWired(path, match found case Some(n) => n case None => "*"))
    else if name.None? then Err("invalid Wi-Fi filename '" + path + "'")
    else
      match SsidOfStem(FileStem(name.value))
      case Err(message) => Err(message)
      case Ok(ssid) => Ok(LoadedWifi(places, path, ssid, Find(Lines(contents), "", "Security", "Passphrase")))
  }

  function LoadFromPath(places: Places, files: map<string, seq<byte>>, path: string): Result<Connection> {
    if path !in files then Err("no such file")
    else
      match FromUtf8(files[path])
      case None => Err("the file is not UTF-8")
      case Some(contents) => LoadConnection(places, path, contents)
  }
}
