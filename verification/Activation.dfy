/** Activating and deactivating a connection, and finding the active connection of an interface. */
module Activation {
  import opened Text
  import opened ObjectPaths
  import opened Tables
  import opened RuntimeState
  import opened RuntimeStore
  import opened Links

  const NO_DEVICE := "/"

  /** The interface to bring up: the end of the device path, or the one the settings name. */
  function InterfaceFor(c: Connection, device: string): Result<string> {
    if device != NO_DEVICE then Ok(LastSegment(device))
    else match c.InterfaceName()
         case Some(name) => Ok(name)
         case None => Err("connection has no interface-name")
  }

  function ActiveFor(c: Entry<Connection>, interfaceName: string, isPrimary: bool): ActiveConnection {
    ActiveConnection(c.path, isPrimary, [DevicePath(interfaceName)], c.value.Id(c.path), c.value.connectionType,
                     c.value.uuid)
  }

  /** Whether the link may be asked for at all, and for which interface. */
  function Admitted(s: State, wirelessEnabled: bool, path: string, device: string): Result<string> {
    match Lookup(s.connections, path)
    case None => Err("unknown connection object")
    case Some(c) =>
      var interfaceName := InterfaceFor(c.value, device);
      if interfaceName.Err? then interfaceName
      else if !s.networkingEnabled || s.sleeping then Err("networking is disabled")
      else if c.value.connectionType == WIFI && !wirelessEnabled then Err("wireless is disabled")
      else if c.value.connectionType == WIFI && c.value.Ssid().None? then Err("Wi-Fi connection is missing SSID")
      else interfaceName
  }

  function AfterBringUp(s: State, c: Entry<Connection>, interfaceName: string): State {
    s.(activeConnections := Repush(s.activeConnections,
         Entry(ActivePath(interfaceName), ActiveFor(c, interfaceName, s.activeConnections == []))))
  }

  function AfterActivation(s: State, path: string, interfaceName: string): State
    requires Lookup(s.connections, path).Some?
  {
    AfterBringUp(s, Lookup(s.connections, path).value, interfaceName)
  }

  /** What the caller's words and the state allow: the connection is there, an interface is known, networking
      is on and awake, and for Wi-Fi the radio is on and the SSID is there. */
  predicate MayActivate(s: State, wirelessEnabled: bool, path: string, device: string) {
    && Lookup(s.connections, path).Some?
    && var c := Lookup(s.connections, path).value.value;
       && (device != "/" || TextSetting(c.settings, "connection", "interface-name").Some?)
       && s.networkingEnabled && !s.sleeping
       && (c.connectionType == "802-11-wireless" ==> wirelessEnabled && c.Ssid().Some?)
  }

  /** The record of an active connection that has just come up on this interface. */
  predicate Activated(a: ActiveConnection, c: Entry<Connection>, interfaceName: string, alone: bool) {
    && a.connection == c.path && a.uuid == c.value.uuid && a.connectionType == c.value.connectionType
    && a.devices == [DevicePath(interfaceName)] && (a.isDefault <==> alone)
    && a.id == match TextSetting(c.value.settings, "connection", "id") case Some(id) => id case None => c.path
  }

  lemma {:induction false} AdmittedExactly(s: State, wirelessEnabled: bool, path: string, device: string)
    ensures Admitted(s, wirelessEnabled, path, device).Ok? <==> MayActivate(s, wirelessEnabled, path, device)
    ensures MayActivate(s, wirelessEnabled, path, device) ==>
              var c := Lookup(s.connections, path).value.value;
              var name := if device != "/" then LastSegment(device)
                          else TextSetting(c.settings, "connection", "interface-name").value;
              Admitted(s, wirelessEnabled, path, device) == Ok(name)
  {
    hide LastSegment, Lookup, FromUtf8;
  }

  /** A device path names its interface in escaped form, which serves the active path just as well. */
  lemma {:induction false} DeviceNames(device: string)
    ensures forall name :: device == DevicePath(name) ==>
              && device != "/" && LastSegment(device) == Segment(name)
              && ActivePath(LastSegment(device)) == ActivePath(name)
  {
    forall name | device == DevicePath(name)
      ensures device != "/" && LastSegment(device) == Segment(name)
           && ActivePath(LastSegment(device)) == ActivePath(name)
    {
      LastSegmentOfDevicePath(name);
      ActivationAgreesWithSync(name);
      hide ActivePath, Segment, LastSegment;
      assert |device| > 1;
    }
  }

  /** Activation appends the record of this connection on this interface, which is the primary one if there
      was no other, and takes away only what was there under its path. */
  lemma {:induction false} ActivationAppends(s: State, path: string, interfaceName: string)
    requires Lookup(s.connections, path).Some?
    ensures var t, after := s.activeConnections, AfterActivation(s, path, interfaceName).activeConnections;
            && after != [] && after[|after| - 1].path == ActivePath(interfaceName)
            && Activated(after[|after| - 1].value, Lookup(s.connections, path).value, interfaceName, t == [])
            && after[..|after| - 1] == Except(t, {ActivePath(interfaceName)})
            && AfterActivation(s, path, interfaceName) == s.(activeConnections := after)
  {
    hide ActivePath, DevicePath, Except, Lookup;
  }

  lemma {:induction false} CallIsLogged(s: LinkState, call: LinkCall, broken: Broken)
    ensures AfterCall(s, call, broken).calls == s.calls + [call]
  {
  }

  /** The link first, then the object, then the record. */
  method BringUp(rt: Runtime, links: LinkControl, served: bool, c: Entry<Connection>, interfaceName: string)
    returns (r: Result<string>)
    modifies rt, links
    ensures links.Now() == AfterCall(old(links.Now()), Up(interfaceName), links.broken)
    ensures links.calls == old(links.calls) + [Up(interfaceName)]
    ensures r.Ok? <==> interfaceName !in links.broken.up && served
    ensures r.Ok? ==> r.value == ActivePath(interfaceName)
    ensures rt.Contents() == if r.Err? then old(rt.Contents())
                             else AfterBringUp(old(rt.Contents()), c, interfaceName)
  {
    hide ActivePath, DevicePath, AfterCall, Repush;
    CallIsLogged(links.Now(), Up(interfaceName), links.broken);
    var ok := links.Call(Up(interfaceName));
    if !ok {
      return Err("the link cannot be brought up");
    }
    if !served {
      return Err("the object cannot be served");
    }
    var activePath := ActivePath(interfaceName);
    var isPrimary := rt.activeConnections == [];
    rt.AddActiveConnection(Entry(activePath, ActiveFor(c, interfaceName, isPrimary)));
    r := Ok(activePath);
  }

  /** `served` tells whether the object server takes the new object, once the link is up. */
  method ActivateConnection(rt: Runtime, links: LinkControl, wirelessEnabled: bool, served: bool, path: string,
                            device: string)
    returns (r: Result<string>)
    modifies rt, links
    ensures var admitted := Admitted(old(rt.Contents()), wirelessEnabled, path, device);
            match admitted
            case Err(message) =>
              r == Err(message) && rt.Contents() == old(rt.Contents()) && links.Now() == old(links.Now())
            case Ok(interfaceName) =>
              var done := interfaceName !in links.broken.up && served;
              && links.Now() == AfterCall(old(links.Now()), Up(interfaceName), links.broken)
              && (!done ==> r.Err? && rt.Contents() == old(rt.Contents()))
              && (done ==> r == Ok(ActivePath(interfaceName))
                           && rt.Contents() == AfterActivation(old(rt.Contents()), path, interfaceName))
    ensures var s := old(rt.Contents());
            if !MayActivate(s, wirelessEnabled, path, device)
            then r.Err? && rt.Contents() == s && links.Now() == old(links.Now())
            else
              var c := Lookup(s.connections, path).value.value;
              var name := if device != "/" then LastSegment(device)
                          else TextSetting(c.settings, "connection", "interface-name").value;
              && links.calls == old(links.calls) + [Up(name)]
              && (r.Ok? <==> name !in links.broken.up && served)
              && (r.Ok? ==> r.value == ActivePath(name))
    ensures MayActivate(old(rt.Contents()), wirelessEnabled, path, device) ==>
              forall name :: device == DevicePath(name) ==>
                links.calls == old(links.calls) + [Up(Segment(name))] && (r.Ok? ==> r.value == ActivePath(name))
  {
    AdmittedExactly(rt.Contents(), wirelessEnabled, path, device);
    DeviceNames(device);
    hide ActivePath, DevicePath, AfterCall, AfterBringUp, MayActivate;
    var connection := Lookup(rt.connections, path);
    if connection.None? {
      return Err("unknown connection object");
    }
    var interfaceName := InterfaceFor(connection.value.value, device);
    if interfaceName.Err? {
      return Err(interfaceName.message);
    }
    if !rt.networkingEnabled || rt.sleeping {
      return Err("networking is disabled");
    }
    if connection.value.value.connectionType == WIFI {
      if !wirelessEnabled {
        return Err("wireless is disabled");
      }
      if connection.value.value.Ssid().None? {
        return Err("Wi-Fi connection is missing SSID");
      }
    }
    r := BringUp(rt, links, served, connection.value, interfaceName.value);
  }

  /** `unserved` tells whether the object server gives the object up, once the record is gone. */
  method DeactivateConnection(rt: Runtime, links: LinkControl, unserved: bool, path: string) returns (r: Result<()>)
    modifies rt, links
    ensures var found := Lookup(old(rt.activeConnections), path);
            var name := if found.Some? then FirstInterface(found.value.value) else None;
            && (name.None? ==> r.Err? && rt.Contents() == old(rt.Contents()) && links.Now() == old(links.Now()))
            && (name.Some? ==>
                  && links.Now() == AfterCall(old(links.Now()), Down(name.value), links.broken)
                  && (r.Ok? <==> name.value !in links.broken.down && unserved)
                  && rt.Contents() == (if name.value in links.broken.down then old(rt.Contents())
                       else old(rt.Contents()).(activeConnections := Without(old(rt.activeConnections), path))))
    ensures var found := Lookup(old(rt.activeConnections), path);
            if found.Some? && found.value.value.devices != []
            then links.calls == old(links.calls) + [Down(LastSegment(found.value.value.devices[0]))]
            else r.Err? && links.calls == old(links.calls)
  {
    var record := Lookup(rt.activeConnections, path);
    if record.None? {
      return Err("unknown active connection object");
    }
    var interfaceName := FirstInterface(record.value.value);
    if interfaceName.None? {
      return Err("active connection has no device");
    }
    CallIsLogged(links.Now(), Down(interfaceName.value), links.broken);
    var ok := links.Call(Down(interfaceName.value));
    if !ok {
      return Err("the link cannot be brought down");
    }
    var _ := rt.RemoveActiveConnection(path);
    r := if unserved then Ok(()) else Err("the object is still served");
  }

  /** Activating and then deactivating takes away whatever the interface had before and nothing
      else. The link that goes down is the one that came up exactly when the interface name needs
      no escaping: the name to bring down is read back from the device path. */
  lemma {:induction false} ActivateThenDeactivate(s: State, path: string, interfaceName: string)
    requires Distinct(s.activeConnections) && Lookup(s.connections, path).Some?
    ensures var t := AfterActivation(s, path, interfaceName).activeConnections;
            var found := Lookup(t, ActivePath(interfaceName));
            && found.Some? && found.value.value.connection == path
            && (FirstInterface(found.value.value) == Some(interfaceName) <==> IsElement(interfaceName))
            && Without(t, ActivePath(interfaceName)) == Except(s.activeConnections, {ActivePath(interfaceName)})
  {
    var active := ActivePath(interfaceName);
    var c := Lookup(s.connections, path).value;
    var rest := Except(s.activeConnections, {active});
    var e := Entry(active, ActiveFor(c, interfaceName, s.activeConnections == []));
    ActivationInterface(interfaceName);
    ExceptPaths(s.activeConnections, {active});
    hide ActivePath, DevicePath, Except;
    Snoc(rest, e);
    LastFound(rest, e);
  }

  lemma {:induction false} LastFound(t: Table<ActiveConnection>, e: Entry<ActiveConnection>)
    requires Distinct(t + [e])
    ensures Lookup(t + [e], e.path) == Some(e) && Without(t + [e], e.path) == t
  {
    var u := t + [e];
    assert u[|t|] == e && u[..|t|] == t;
    DistinctLookup(u, |t|);
  }

  // ------------------------------------------------------------- the suffix lookup

  /** Some device path of the record ends in the text. */
  predicate EndsIn(a: ActiveConnection, name: string) {
    exists i :: 0 <= i < |a.devices| && EndsWith(a.devices[i], name)
  }

  predicate IsFirstEndingIn(t: Table<ActiveConnection>, i: int, name: string) {
    && 0 <= i < |t| && EndsIn(t[i].value, name)
    && (forall j :: 0 <= j < i ==> !EndsIn(t[j].value, name))
  }

  /** The first record with such a path. */
  method ActiveConnectionForInterface(rt: Runtime, name: string) returns (path: Option<string>)
    ensures path.None? ==> forall i :: 0 <= i < |rt.activeConnections| ==> !EndsIn(rt.activeConnections[i].value, name)
    ensures path.Some? <==>
              exists e, d :: e in rt.activeConnections && d in e.value.devices && EndsWith(d, name)
    ensures path.Some? ==>
              exists i :: IsFirstEndingIn(rt.activeConnections, i, name) && path.value == rt.activeConnections[i].path
  {
    for i := 0 to |rt.activeConnections|
      invariant forall j :: 0 <= j < i ==> !EndsIn(rt.activeConnections[j].value, name)
    {
      if EndsIn(rt.activeConnections[i].value, name) {
        assert IsFirstEndingIn(rt.activeConnections, i, name);
        return Some(rt.activeConnections[i].path);
      }
    }
    path := None;
  }

  /** A device path ends in a slash-free text exactly when its element does. */
  lemma {:induction false} SuffixMatches(link: string, name: string)
    requires '/' !in name
    ensures EndsWith(DevicePath(link), name) <==> EndsWith(Segment(link), name)
  {
    EndsAfterSlash(DEVICES, Segment(link), name);
  }

  lemma {:induction false} EndsAfterSlash(prefix: string, segment: string, name: string)
    requires '/' !in name
    ensures EndsWith(prefix + "/" + segment, name) <==> EndsWith(segment, name)
  {
    if |name| <= |segment| {
      TailOfTail(prefix + "/", segment, |name|);
    } else {
      SlashInTail(prefix + "/" + segment, |prefix|, |name|);
    }
  }

  lemma {:induction false} TailOfTail(head: string, tail: string, n: nat)
    requires n <= |tail|
    ensures (head + tail)[|head + tail| - n..] == tail[|tail| - n..]
  {
  }

  lemma {:induction false} SlashInTail(p: string, slash: nat, n: nat)
    requires slash < |p| && p[slash] == '/' && slash + n >= |p|
    ensures n <= |p| ==> '/' in p[|p| - n..]
  {
    if n <= |p| {
      assert p[|p| - n..][slash - (|p| - n)] == '/';
    }
  }

  /** The lookup takes a link for its own name exactly when the name is empty or needs no
      escaping. */
  lemma {:induction false} FindsItself(name: string)
    requires '/' !in name
    ensures EndsWith(DevicePath(name), name) <==> name == "" || IsElement(name)
  {
    SuffixMatches(name, name);
    SegmentIsElement(name);
    SegmentFixpoint(name);
    var segment := Segment(name);
    hide Segment;
    if EndsWith(segment, name) && name != "" {
      forall c | c in name ensures IsElementChar(c) {
        var k :| 0 <= k < |name| && name[k] == c;
        assert segment[|segment| - |name| + k] == c;
      }
    }
  }

  /** It takes one link for another as soon as a name ends in the other: eth1 finds veth1. */
  lemma {:induction false} FindsAnother(prefix: string, name: string)
    requires IsElement(name) && IsElement(prefix + name)
    ensures EndsWith(DevicePath(prefix + name), name)
  {
    SegmentFixpoint(prefix + name);
    assert forall c :: c in name ==> c != '/';
    SuffixMatches(prefix + name, name);
  }
}
