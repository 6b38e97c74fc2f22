/**
  The device resolver of `find_cast_by_name`: two early-exit passes over the
  discovered receivers in enumeration order. Discovery itself is an input:
  the sequence of records it produced.
 */
module Devices {
  import opened Wrappers
  import opened Ascii

  /**
    A discovered receiver: its friendly name and, when the cast object has a
    `device` attribute, that device's id.
   */
  datatype Device = Device(name: string, deviceId: Option<string>)

  /** The two passes, in the order they run. */
  datatype Pass = SameName | ContainsName

  /**
    Pass one accepts a name equal to the target exactly or ignoring case;
    pass two accepts a name that contains the target ignoring case.
   */
  predicate Accepts(pass: Pass, candidate: string, target: string) {
    match pass
    case SameName => candidate == target || LowerString(candidate) == LowerString(target)
    case ContainsName => IsSubstring(LowerString(target), LowerString(candidate))
  }

  /** First position at or after `from` whose name `pass` accepts. */
  function FirstAccepted(devices: seq<Device>, target: string, pass: Pass, from: nat): (r: Option<nat>)
    decreases |devices| - from
    ensures r.Some? ==> from <= r.value < |devices| && Accepts(pass, devices[r.value].name, target)
    ensures r.Some? ==> forall j :: from <= j < r.value ==> !Accepts(pass, devices[j].name, target)
    ensures r.None? ==> forall j :: from <= j < |devices| ==> !Accepts(pass, devices[j].name, target)
  {
    if |devices| <= from then None
    else if Accepts(pass, devices[from].name, target) then Some(from)
    else FirstAccepted(devices, target, pass, from + 1)
  }

  /** The resolver's answer: pass one, and pass two only when pass one found nothing. */
  function Resolve(devices: seq<Device>, target: string): Option<nat> {
    match FirstAccepted(devices, target, SameName, 0)
    case Some(i) => Some(i)
    case None => FirstAccepted(devices, target, ContainsName, 0)
  }

  /**
    `find_cast_by_name` over the discovered records: returns the position of
    the chosen record, or None. The list is a value, so it is left unchanged.
   */
  method FindCastByName(devices: seq<Device>, name: string) returns (r: Option<nat>)
    ensures r == Resolve(devices, name)
  {
    for i := 0 to |devices|
      invariant forall j :: 0 <= j < i ==> !Accepts(SameName, devices[j].name, name)
    {
      var c := devices[i];
      if c.name == name || LowerString(c.name) == LowerString(name) {
        return Some(i);
      }
    }
    for i := 0 to |devices|
      invariant forall j :: 0 <= j < i ==> !Accepts(ContainsName, devices[j].name, name)
    {
      var c := devices[i];
      if IsSubstring(LowerString(name), LowerString(c.name)) {
        return Some(i);
      }
    }
    return None;
  }

  /** A name that passes the first pass also passes the second. */
  lemma SameNameContains(candidate: string, target: string)
    requires Accepts(SameName, candidate, target)
    ensures Accepts(ContainsName, candidate, target)
  {
    SubstringOfSelf(LowerString(target));
  }

  /** Pass one: the first record whose name equals the target, exactly or ignoring case, wins. */
  lemma ResolveSameName(devices: seq<Device>, target: string, i: nat)
    requires i < |devices| && Accepts(SameName, devices[i].name, target)
    requires forall j :: 0 <= j < i ==> !Accepts(SameName, devices[j].name, target)
    ensures Resolve(devices, target) == Some(i)
  {
    var r := FirstAccepted(devices, target, SameName, 0);
    assert r.Some?;
    assert !(r.value < i) && !(i < r.value);
  }

  /**
    Pass two: with no record passing pass one, the first record whose name
    contains the target ignoring case wins.
   */
  lemma ResolveContains(devices: seq<Device>, target: string, i: nat)
    requires forall j :: 0 <= j < |devices| ==> !Accepts(SameName, devices[j].name, target)
    requires i < |devices| && Accepts(ContainsName, devices[i].name, target)
    requires forall j :: 0 <= j < i ==> !Accepts(ContainsName, devices[j].name, target)
    ensures Resolve(devices, target) == Some(i)
  {
    var r := FirstAccepted(devices, target, ContainsName, 0);
    assert r.Some?;
    assert !(r.value < i) && !(i < r.value);
  }

  /** Not found exactly when no name contains the target ignoring case. */
  lemma ResolveNoneIff(devices: seq<Device>, target: string)
    ensures Resolve(devices, target).None? <==>
            forall j :: 0 <= j < |devices| ==> !Accepts(ContainsName, devices[j].name, target)
  {
    var first := FirstAccepted(devices, target, SameName, 0);
    if first.Some? {
      SameNameContains(devices[first.value].name, target);
    }
  }

  /** Any record found is one of the discovered records, and it satisfies one of the passes. */
  lemma ResolveFound(devices: seq<Device>, target: string)
    requires Resolve(devices, target).Some?
    ensures Resolve(devices, target).value < |devices|
    ensures Accepts(ContainsName, devices[Resolve(devices, target).value].name, target)
  {
    var first := FirstAccepted(devices, target, SameName, 0);
    if first.Some? {
      SameNameContains(devices[first.value].name, target);
    }
  }

  lemma ExampleCaselessName()
    ensures Resolve([Device("Living Room TV", None), Device("Kitchen Display", None)], "living room tv") == Some(0)
  {
    var devices := [Device("Living Room TV", None), Device("Kitchen Display", None)];
    assert LowerString("Living Room TV") == "living room tv";
    assert LowerString("living room tv") == "living room tv";
    ResolveSameName(devices, "living room tv", 0);
  }

  lemma ExampleSubstring()
    ensures Resolve([Device("Office Nest Hub", None)], "hub") == Some(0)
  {
    var devices := [Device("Office Nest Hub", None)];
    assert LowerString("Office Nest Hub") == "office nest hub";
    assert LowerString("hub") == "hub";
    assert "hub" <= "office nest hub"[12..];
    ResolveContains(devices, "hub", 0);
  }

  /** One pass: an earlier case-insensitive match beats a later exact match. */
  lemma ExampleEarlierCaselessWins()
    ensures Resolve([Device("LIVING ROOM TV", None), Device("living room tv", None)], "living room tv") == Some(0)
  {
    var devices := [Device("LIVING ROOM TV", None), Device("living room tv", None)];
    assert LowerString("LIVING ROOM TV") == "living room tv";
    assert LowerString("living room tv") == "living room tv";
    ResolveSameName(devices, "living room tv", 0);
  }

  lemma ExampleNotFound()
    ensures Resolve([Device("Kitchen Display", None)], "bedroom") == None
  {
    var devices := [Device("Kitchen Display", None)];
    var name := LowerString("Kitchen Display");
    assert name == "kitchen display";
    assert LowerString("bedroom") == "bedroom";
    forall i | 0 <= i <= |name| - 7
      ensures !("bedroom" <= name[i..])
    {
      assert name[i] != 'b';
    }
    ResolveNoneIff(devices, "bedroom");
  }
}
