/** D-Bus object paths: the escaping of interface names into path elements and
    the path builders. */
module ObjectPaths {
  import opened Text

  const ROOT := "/org/freedesktop/NetworkManager"
  const DEVICES := ROOT + "/" + "Devices"
  const ACTIVE_CONNECTIONS := ROOT + "/" + "ActiveConnections"
  const SETTINGS := ROOT + "/" + "Settings"
  const CHECKPOINTS := ROOT + "/" + "Checkpoint"
  const ACCESS_POINTS := ROOT + "/" + "AccessPoint"
  const IP4_CONFIG := ROOT + "/" + "IP4Config"
  const IP6_CONFIG := ROOT + "/" + "IP6Config"
  const DHCP4_CONFIG := ROOT + "/" + "DHCP4Config"
  const DHCP6_CONFIG := ROOT + "/" + "DHCP6Config"
  const PEERS := ROOT + "/" + "WifiP2PPeer"

  // ------------------------------------------------------------- escaping

  predicate IsPlain(b: byte) {
    IsAlnum(b as char) || b as char == '_'
  }

  function EscapeByte(b: byte): string {
    if IsPlain(b) then [b as char] else "_" + Hex2(b)
  }

  function Escape(bytes: seq<byte>): string {
    if bytes == [] then [] else EscapeByte(bytes[0]) + Escape(bytes[1..])
  }

  /** The path element for a name; `ObjectPathSegment` computes it. */
  function Segment(name: string): string {
    if Utf8(name) == [] then "_" else Escape(Utf8(name))
  }

  method ObjectPathSegment(value: string) returns (out: string)
    ensures out == Segment(value)
  {
    out := "";
    var bytes := Utf8(value);
    for i := 0 to |bytes|
      invariant out + Escape(bytes[i..]) == Escape(bytes)
    {
      EscapeStep(out, bytes, i);
      var ch := bytes[i] as char;
      if IsAlnum(ch) || ch == '_' {
        out := out + [ch];
      } else {
        out := out + "_" + Hex2(bytes[i]);
      }
    }
    assert bytes[|bytes|..] == [];
    EscapeLength(bytes);
    if out == [] {
      out := "_";
    }
  }

  lemma {:induction false} EscapeStep(out: string, bytes: seq<byte>, i: nat)
    requires i < |bytes|
    ensures var ch := bytes[i] as char;
            var next := if IsAlnum(ch) || ch == '_' then out + [ch] else out + "_" + Hex2(bytes[i]);
            next + Escape(bytes[i + 1..]) == out + Escape(bytes[i..])
  {
    assert bytes[i..][1..] == bytes[i + 1..];
    var e, rest := EscapeByte(bytes[i]), Escape(bytes[i + 1..]);
    assert Escape(bytes[i..]) == e + rest;
    assert (out + e) + rest == out + (e + rest);
    assert out + ("_" + Hex2(bytes[i])) == out + "_" + Hex2(bytes[i]);
  }

  lemma {:induction false} EscapeLength(bytes: seq<byte>)
    ensures |Escape(bytes)| >= |bytes|
  {
    if bytes != [] {
      EscapeLength(bytes[1..]);
    }
  }

  // --------------------------------------------------- well-formed elements

  predicate IsElementChar(c: char) {
    IsAlnum(c) || c == '_'
  }

  /** An element of an object path, as "Valid Object Paths" of the D-Bus Specification asks. */
  predicate IsElement(s: string) {
    s != [] && forall c :: c in s ==> IsElementChar(c)
  }

  /** "Valid Object Paths" of the D-Bus Specification. */
  predicate IsObjectPath(p: string) {
    || p == "/"
    || (&& |p| > 1 && p[0] == '/' && p[|p| - 1] != '/'
        && (forall i :: 0 <= i < |p| ==> p[i] == '/' || IsElementChar(p[i]))
        && (forall i :: 0 <= i < |p| - 1 ==> p[i] != '/' || p[i + 1] != '/'))
  }

  lemma {:induction false} EscapeChars(bytes: seq<byte>)
    ensures forall c :: c in Escape(bytes) ==> IsElementChar(c)
  {
    if bytes != [] {
      EscapeChars(bytes[1..]);
      assert forall c :: c in EscapeByte(bytes[0]) ==> IsElementChar(c);
    }
  }

  lemma {:induction false} SegmentIsElement(name: string)
    ensures IsElement(Segment(name)) && '/' !in Segment(name)
  {
    EscapeChars(Utf8(name));
    EscapeLength(Utf8(name));
  }

  lemma {:induction false} ExtendPath(prefix: string, element: string)
    requires IsObjectPath(prefix) && prefix != "/" && IsElement(element)
    ensures IsObjectPath(prefix + "/" + element)
  {
    var p := prefix + "/" + element;
    forall i | 0 <= i < |p|
      ensures p[i] == '/' || IsElementChar(p[i])
      ensures i < |p| - 1 ==> p[i] != '/' || p[i + 1] != '/'
    {
      if i > |prefix| {
        assert p[i] == element[i - |prefix| - 1] && p[i] in element;
      }
      if |prefix| <= i < |p| - 1 {
        assert p[i + 1] == element[i - |prefix|] && p[i + 1] in element;
      }
    }
    assert p[|p| - 1] == element[|element| - 1] && p[|p| - 1] in element;
  }

  // ------------------------------------------------------------- idempotence

  lemma {:induction false} ElementCharUtf8(c: char, rest: string)
    requires IsElementChar(c)
    ensures Utf8([c] + rest) == [c as int] + Utf8(rest)
  {
    assert ([c] + rest)[1..] == rest;
  }

  lemma {:induction false} ElementCharEscape(c: char, rest: seq<byte>)
    requires IsElementChar(c)
    ensures Escape([c as int] + rest) == [c] + Escape(rest)
  {
    assert ([c as int] + rest)[1..] == rest;
    assert EscapeByte(c as int) == [c];
  }

  lemma {:induction false} EscapeFixpoint(s: string)
    requires forall c :: c in s ==> IsElementChar(c)
    ensures Escape(Utf8(s)) == s
    ensures |Utf8(s)| == |s|
    ensures forall i :: 0 <= i < |s| ==> Utf8(s)[i] == s[i] as int
  {
    if s != [] {
      hide Utf8, Escape;
      var c, rest := s[0], s[1..];
      assert s == [c] + rest && c in s;
      assert forall d :: d in rest ==> d in s;
      EscapeFixpoint(rest);
      ElementCharUtf8(c, rest);
      ElementCharEscape(c, Utf8(rest));
      hide IsElementChar;
      assert forall i :: 1 <= i < |s| ==> s[i] == rest[i - 1] && Utf8(s)[i] == Utf8(rest)[i - 1];
    }
  }

  /** Escaping an element again changes nothing. */
  lemma {:induction false} SegmentIdempotent(name: string)
    ensures Segment(Segment(name)) == Segment(name)
  {
    SegmentIsElement(name);
    EscapeFixpoint(Segment(name));
  }

  /** A name is its own element exactly when it already is one. */
  lemma {:induction false} SegmentFixpoint(name: string)
    ensures Segment(name) == name <==> IsElement(name)
  {
    SegmentIsElement(name);
    if IsElement(name) {
      EscapeFixpoint(name);
    }
  }

  // ---------------------------------------------------------------- decoding

  function LowerHexValue(c: char): Option<nat> {
    if '0' <= c <= '9' then Some(c as int - '0' as int)
    else if 'a' <= c <= 'f' then Some(c as int - 'a' as int + 10)
    else None
  }

  function PairValue(high: char, low: char): (r: Option<byte>) {
    if LowerHexValue(high).Some? && LowerHexValue(low).Some?
    then Some(LowerHexValue(high).value * 16 + LowerHexValue(low).value) else None
  }

  /** Two characters that can only have come from an escaped byte. */
  predicate IsEscape(high: char, low: char) {
    PairValue(high, low).Some? && !IsPlain(PairValue(high, low).value)
  }

  /** A left-to-right decoder for path elements. */
  function Unescape(s: string): seq<byte>
    requires forall c :: c in s ==> IsElementChar(c)
  {
    if s == [] then []
    else if |s| >= 3 && s[0] == '_' && IsEscape(s[1], s[2]) then
      [PairValue(s[1], s[2]).value] + Unescape(s[3..])
    else assert s[0] in s; [ElementByte(s[0])] + Unescape(s[1..])
  }

  function ElementByte(c: char): byte
    requires IsElementChar(c)
  {
    c as int
  }

  predicate EscapeAt(b: seq<byte>, i: nat) {
    i + 2 < |b| && b[i] as char == '_' && IsEscape(b[i + 1] as char, b[i + 2] as char)
  }

  /** No underscore of the name is followed by the two hex digits of an escaped byte. */
  predicate IsUnambiguous(b: seq<byte>) {
    forall i :: 0 <= i < |b| ==> !EscapeAt(b, i)
  }

  lemma {:induction false} HexOfByte(b: byte)
    ensures PairValue(Hex2(b)[0], Hex2(b)[1]) == Some(b)
  {
    assert LowerHexValue(Digit(b / 16)) == Some(b / 16);
    assert LowerHexValue(Digit(b % 16)) == Some(b % 16);
  }

  /** The shape of an encoded suffix, as the decoder sees its first characters. */
  lemma {:induction false} EscapeStart(b: seq<byte>)
    requires b != []
    ensures var e := Escape(b);
            if IsPlain(b[0]) then e[0] == b[0] as char && e[1..] == Escape(b[1..])
            else |e| >= 3 && e[0] == '_' && e[1..3] == Hex2(b[0]) && e[3..] == Escape(b[1..])
  {
  }

  /** The decoder meets a false escape on the encoding exactly where the name has one. */
  lemma {:induction false} FalseEscape(b: seq<byte>)
    requires b != [] && b[0] as char == '_'
    ensures var e := Escape(b);
            |e| >= 1 && (|e| >= 3 && IsEscape(e[1], e[2]) <==> EscapeAt(b, 0))
    ensures EscapeAt(b, 0) ==> Escape(b)[3..] == Escape(b[3..])
  {
    EscapeStart(b);
    if |b| > 1 {
      EscapeStart(b[1..]);
      if |b| > 2 {
        EscapeStart(b[2..]);
        assert b[1..][1..] == b[2..] && b[2..][1..] == b[3..];
      }
    }
  }

  /** Decoding never lengthens a name, and gives it back exactly when it is unambiguous. */
  lemma {:induction false} UnescapeEscape(b: seq<byte>)
    requires forall c :: c in Escape(b) ==> IsElementChar(c)
    ensures |Unescape(Escape(b))| <= |b|
    ensures IsUnambiguous(b) ==> Unescape(Escape(b)) == b
    ensures !IsUnambiguous(b) ==> |Unescape(Escape(b))| < |b|
  {
    if b != [] {
      var e := Escape(b);
      EscapeStart(b);
      EscapeChars(b[1..]);
      assert forall i :: 0 <= i < |b| - 1 ==> EscapeAt(b[1..], i) == EscapeAt(b, i + 1);
      if IsPlain(b[0]) {
        if b[0] as char == '_' {
          FalseEscape(b);
        }
        if EscapeAt(b, 0) {
          EscapeChars(b[3..]);
          UnescapeEscape(b[3..]);
        } else {
          UnescapeEscape(b[1..]);
          assert IsUnambiguous(b[1..]) <==> IsUnambiguous(b) by { UnambiguousTail(b); }
          assert b == [b[0]] + b[1..];
        }
      } else {
        HexOfByte(b[0]);
        assert e[1] == Hex2(b[0])[0] && e[2] == Hex2(b[0])[1] by {
          assert e[1..3] == Hex2(b[0]);
          assert e[1] == e[1..3][0] && e[2] == e[1..3][1];
        }
        assert !EscapeAt(b, 0);
        UnescapeEscape(b[1..]);
        UnambiguousTail(b);
        assert b == [b[0]] + b[1..];
      }
    }
  }

  lemma {:induction false} UnambiguousTail(b: seq<byte>)
    requires b != [] && !EscapeAt(b, 0)
    ensures IsUnambiguous(b[1..]) <==> IsUnambiguous(b)
  {
    var t := b[1..];
    if IsUnambiguous(t) {
      forall i | 0 <= i < |b| ensures !EscapeAt(b, i) {
        if i > 0 { assert !EscapeAt(t, i - 1); }
      }
    }
    if IsUnambiguous(b) {
      forall i | 0 <= i < |t| ensures !EscapeAt(t, i) {
        assert !EscapeAt(b, i + 1);
      }
    }
  }

  /** A path element gives back the name's bytes exactly when the name is non-empty
      and unambiguous. */
  lemma {:induction false} SegmentDecodes(name: string)
    ensures (forall c :: c in Segment(name) ==> IsElementChar(c))
    ensures Unescape(Segment(name)) == Utf8(name) <==> name != [] && IsUnambiguous(Utf8(name))
  {
    SegmentIsElement(name);
    if name != [] {
      Utf8Nonempty(name);
      UnescapeEscape(Utf8(name));
    }
  }

  lemma {:induction false} Utf8Nonempty(name: string)
    requires name != []
    ensures Utf8(name) != []
  {
  }

  /** Unambiguous names get different path elements. */
  lemma {:induction false} SegmentInjective(a: string, b: string)
    requires a != [] && IsUnambiguous(Utf8(a))
    requires b != [] && IsUnambiguous(Utf8(b))
    requires Segment(a) == Segment(b)
    ensures a == b
  {
    SegmentDecodes(a);
    SegmentDecodes(b);
    Utf8Injective(a, b);
  }

  /** Outside those names two interfaces can share one element. */
  lemma {:induction false} SegmentCollisions()
    ensures Segment("-") == Segment("_2d") && Segment("") == Segment("_")
    ensures !IsUnambiguous(Utf8("_2d"))
  {
    assert Utf8("-") == [45];
    assert Escape([45]) == EscapeByte(45) + Escape([]);
    assert Hex2(45) == "2d";
    EscapeFixpoint("_2d");
    EscapeFixpoint("_");
    assert EscapeAt(Utf8("_2d"), 0);
  }

  // ------------------------------------------------------------ path builders

  function DevicePath(interfaceName: string): string {
    DEVICES + "/" + Segment(interfaceName)
  }

  function ActivePath(interfaceName: string): string {
    ACTIVE_CONNECTIONS + "/" + Segment(interfaceName)
  }

  function ConfigPath(prefix: string, interfaceName: string): string {
    prefix + "/" + Segment(interfaceName)
  }

  function SettingsPath(id: nat): string {
    SETTINGS + "/" + Decimal(id)
  }

  function CheckpointPath(id: nat): string {
    CHECKPOINTS + "/" + Decimal(id)
  }

  /** The paths that clients know. */
  lemma {:induction false} PrefixTexts()
    ensures DEVICES == "/org/freedesktop/NetworkManager/Devices"
    ensures ACTIVE_CONNECTIONS == "/org/freedesktop/NetworkManager/ActiveConnections"
    ensures SETTINGS == "/org/freedesktop/NetworkManager/Settings"
    ensures CHECKPOINTS == "/org/freedesktop/NetworkManager/Checkpoint"
  {
  }

  lemma {:induction false} OtherPrefixTexts()
    ensures ACCESS_POINTS == "/org/freedesktop/NetworkManager/AccessPoint"
    ensures IP4_CONFIG == "/org/freedesktop/NetworkManager/IP4Config"
    ensures IP6_CONFIG == "/org/freedesktop/NetworkManager/IP6Config"
    ensures DHCP4_CONFIG == "/org/freedesktop/NetworkManager/DHCP4Config"
    ensures DHCP6_CONFIG == "/org/freedesktop/NetworkManager/DHCP6Config"
    ensures PEERS == "/org/freedesktop/NetworkManager/WifiP2PPeer"
  {
  }

  /** `replace('-', "_")` */
  function DashesToUnderscores(s: string): string {
    if s == [] then [] else [if s[0] == '-' then '_' else s[0]] + DashesToUnderscores(s[1..])
  }

  /** Every dash becomes an underscore, and nothing else changes. */
  lemma {:induction false} DashesSay(s: string)
    ensures |DashesToUnderscores(s)| == |s|
    ensures forall i :: 0 <= i < |s| ==> DashesToUnderscores(s)[i] == if s[i] == '-' then '_' else s[i]
  {
    if s != [] {
      DashesSay(s[1..]);
    }
  }

  /** The name-based UUID of a namespace and a value. */
  type UuidFunction = (string, string) -> string

  function AccessPointPath(uuid: UuidFunction, networkPath: string): string {
    ACCESS_POINTS + "/" + DashesToUnderscores(uuid("access-point", networkPath))
  }

  function PeerPath(uuid: UuidFunction, interfaceName: string, networkPath: string): string {
    PEERS + "/" + (Segment(interfaceName) + "_" + DashesToUnderscores(uuid("wifi-p2p-peer", networkPath)))
  }

  lemma {:induction false} DecimalIsElement(n: nat)
    ensures IsElement(Decimal(n)) && '/' !in Decimal(n)
  {
  }

  lemma {:induction false} DashesReplaced(s: string)
    requires forall c :: c in s ==> IsAlnum(c) || c == '-'
    ensures |DashesToUnderscores(s)| == |s|
    ensures forall c :: c in DashesToUnderscores(s) ==> IsElementChar(c)
  {
    if s != [] {
      assert s[0] in s && forall c :: c in s[1..] ==> c in s;
      DashesReplaced(s[1..]);
    }
  }

  lemma {:induction false} ChildOfRoot(element: string)
    requires IsElement(element)
    ensures IsObjectPath(ROOT + "/" + element)
  {
    ExtendPath("/org", "freedesktop");
    ExtendPath("/org" + "/" + "freedesktop", "NetworkManager");
    ExtendPath(ROOT, element);
  }

  lemma {:induction false} TablePrefixes()
    ensures IsObjectPath(DEVICES) && IsObjectPath(ACTIVE_CONNECTIONS) && IsObjectPath(SETTINGS)
  {
    ChildOfRoot("Devices");
    ChildOfRoot("ActiveConnections");
    ChildOfRoot("Settings");
  }

  lemma {:induction false} OtherPrefixes()
    ensures IsObjectPath(CHECKPOINTS) && IsObjectPath(ACCESS_POINTS) && IsObjectPath(PEERS)
  {
    ChildOfRoot("Checkpoint");
    ChildOfRoot("AccessPoint");
    ChildOfRoot("WifiP2PPeer");
  }

  lemma {:induction false} ConfigPrefixes()
    ensures IsObjectPath(IP4_CONFIG) && IsObjectPath(IP6_CONFIG) && IsObjectPath(DHCP4_CONFIG)
         && IsObjectPath(DHCP6_CONFIG)
  {
    ChildOfRoot("IP4Config");
    ChildOfRoot("IP6Config");
    ChildOfRoot("DHCP4Config");
    ChildOfRoot("DHCP6Config");
  }

  /** Every generated path is a valid object path, so building it cannot panic. */
  lemma {:induction false} GeneratedPathsAreValid(name: string, id: nat)
    ensures IsObjectPath(DevicePath(name)) && IsObjectPath(ActivePath(name))
    ensures IsObjectPath(SettingsPath(id)) && IsObjectPath(CheckpointPath(id))
    ensures IsObjectPath(ConfigPath(IP4_CONFIG, name)) && IsObjectPath(ConfigPath(IP6_CONFIG, name))
    ensures IsObjectPath(ConfigPath(DHCP4_CONFIG, name)) && IsObjectPath(ConfigPath(DHCP6_CONFIG, name))
  {
    TablePrefixes();
    OtherPrefixes();
    ConfigPrefixes();
    SegmentIsElement(name);
    DecimalIsElement(id);
    ExtendPath(DEVICES, Segment(name));
    ExtendPath(ACTIVE_CONNECTIONS, Segment(name));
    ExtendPath(SETTINGS, Decimal(id));
    ExtendPath(CHECKPOINTS, Decimal(id));
    ExtendPath(IP4_CONFIG, Segment(name));
    ExtendPath(IP6_CONFIG, Segment(name));
    ExtendPath(DHCP4_CONFIG, Segment(name));
    ExtendPath(DHCP6_CONFIG, Segment(name));
  }

  /** The same for paths built from a UUID, given its textual form of hex digits and dashes. */
  lemma {:induction false} UuidPathsAreValid(uuid: UuidFunction, name: string, network: string)
    requires forall space, value :: uuid(space, value) != []
                && forall c :: c in uuid(space, value) ==> IsAlnum(c) || c == '-'
    ensures IsObjectPath(AccessPointPath(uuid, network)) && IsObjectPath(PeerPath(uuid, name, network))
  {
    OtherPrefixes();
    SegmentIsElement(name);
    DashesReplaced(uuid("access-point", network));
    DashesReplaced(uuid("wifi-p2p-peer", network));
    ExtendPath(ACCESS_POINTS, DashesToUnderscores(uuid("access-point", network)));
    ExtendPath(PEERS, Segment(name) + "_" + DashesToUnderscores(uuid("wifi-p2p-peer", network)));
  }

  lemma {:induction false} LastSegmentOfDevicePath(name: string)
    ensures LastSegment(DevicePath(name)) == Segment(name)
  {
    SegmentIsElement(name);
    LastSegmentAfterSlash(DEVICES, Segment(name));
  }

  /** Activation takes the last element of a device path and encodes it again; it names
      the active connection that a sync computes from the raw interface name. */
  lemma {:induction false} ActivationAgreesWithSync(name: string)
    ensures ActivePath(LastSegment(DevicePath(name))) == ActivePath(name)
  {
    LastSegmentOfDevicePath(name);
    SegmentIdempotent(name);
  }

  /** The same element, used as the interface to bring up, is the raw name exactly when
      the name needs no escaping. */
  lemma {:induction false} ActivationInterface(name: string)
    ensures LastSegment(DevicePath(name)) == name <==> IsElement(name)
  {
    LastSegmentOfDevicePath(name);
    SegmentFixpoint(name);
  }

  lemma {:induction false} SettingsPathInjective(m: nat, n: nat)
    requires SettingsPath(m) == SettingsPath(n)
    ensures m == n
  {
    DecimalIsElement(m);
    DecimalIsElement(n);
    LastSegmentAfterSlash(SETTINGS, Decimal(m));
    LastSegmentAfterSlash(SETTINGS, Decimal(n));
    ParseDecimal(m);
    ParseDecimal(n);
  }

  lemma {:induction false} CheckpointPathInjective(m: nat, n: nat)
    requires CheckpointPath(m) == CheckpointPath(n)
    ensures m == n
  {
    DecimalIsElement(m);
    DecimalIsElement(n);
    LastSegmentAfterSlash(CHECKPOINTS, Decimal(m));
    LastSegmentAfterSlash(CHECKPOINTS, Decimal(n));
    ParseDecimal(m);
    ParseDecimal(n);
  }
}
