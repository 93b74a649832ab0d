/** `svDeviceFactory`: the ordered list of prototype devices, searched by
    SPICE identifier character, that hands out clones.  The static vector
    `s_registered` is the field of one factory object. */
module Registry {
  import opened Common
  import opened Geometry
  import opened Devices

  /** The eleven kinds the header-inline factories register, in order. */
  const BuiltInKinds: seq<Kind> :=
    [Capacitor, Resistor, Inductor, Diode, ISource, VSource, MOS, BJT, JFET, GSource, ESource]

  /** The twelve kinds `devices.cpp` registers: the external pin first. */
  function AllKinds(pin: PinTraits): (ks: seq<Kind>)
    ensures |ks| == 12 && ks[0] == ExternalPin(pin) && ks[1..] == BuiltInKinds
  {
    [ExternalPin(pin)] + BuiltInKinds
  }

  /** Default-constructed prototypes of the given kinds. */
  function Defaults(ks: seq<Kind>): (ps: seq<DeviceValue>)
    ensures |ps| == |ks| && forall i :: 0 <= i < |ks| ==> ps[i] == DefaultValue(ks[i])
  {
    seq(|ks|, i requires 0 <= i < |ks| => DefaultValue(ks[i]))
  }

  /** `getDeviceMatchingIdentifier` on prototype values: the clone of the
      first prototype whose identifier is `c`, or None (NULL). */
  function LookupValue(protos: seq<DeviceValue>, c: char): (r: Option<DeviceValue>)
    ensures r.None? <==> forall i :: 0 <= i < |protos| ==> Id(protos[i].kind) != c
    ensures r.Some? ==> Id(r.value.kind) == c
    decreases |protos|
  {
    if protos == [] then None
    else if Id(protos[0].kind) == c then Some(CloneValue(protos[0]))
    else
      var r := LookupValue(protos[1..], c);
      assert forall i :: 1 <= i < |protos| ==> protos[i] == protos[1..][i - 1];
      r
  }

  /** Lookup returns the clone of the first prototype with a matching
      identifier. */
  lemma {:induction false} LookupFindsFirst(protos: seq<DeviceValue>, c: char, i: nat)
    requires i < |protos| && Id(protos[i].kind) == c
    requires forall k :: 0 <= k < i ==> Id(protos[k].kind) != c
    ensures LookupValue(protos, c) == Some(CloneValue(protos[i]))
    decreases i
  {
    if i > 0 {
      LookupFindsFirst(protos[1..], c, i - 1);
    }
  }

  /** The identifiers of a sequence of kinds. */
  function IdsOf(ks: seq<Kind>): (s: string)
    ensures |s| == |ks| && forall i :: 0 <= i < |ks| ==> s[i] == Id(ks[i])
  {
    seq(|ks|, i requires 0 <= i < |ks| => Id(ks[i]))
  }

  /** The built-in identifiers. */
  lemma BuiltInIds()
    ensures IdsOf(BuiltInKinds) == "CRLDIVMQJGE"
  {
  }

  /** No two built-in kinds share an identifier. */
  lemma BuiltInIdsDistinct()
    ensures Distinct(IdsOf(BuiltInKinds))
  {
    BuiltInIds();
    assert Distinct("CRLDIVMQJGE");
  }

  /** The prototypes registered in order, as values. */
  lemma BuiltInDefaults()
    ensures Defaults(BuiltInKinds)
            == [DefaultValue(Capacitor), DefaultValue(Resistor), DefaultValue(Inductor), DefaultValue(Diode),
                DefaultValue(ISource), DefaultValue(VSource), DefaultValue(MOS), DefaultValue(BJT),
                DefaultValue(JFET), DefaultValue(GSource), DefaultValue(ESource)]
  {
  }

  /** Appending the eleven default prototypes one by one appends
      `Defaults(BuiltInKinds)`. */
  lemma BuiltInDefaultsAppended(p: seq<DeviceValue>)
    ensures p + [DefaultValue(Capacitor)] + [DefaultValue(Resistor)] + [DefaultValue(Inductor)]
            + [DefaultValue(Diode)] + [DefaultValue(ISource)] + [DefaultValue(VSource)]
            + [DefaultValue(MOS)] + [DefaultValue(BJT)] + [DefaultValue(JFET)]
            + [DefaultValue(GSource)] + [DefaultValue(ESource)]
            == p + Defaults(BuiltInKinds)
  {
    BuiltInDefaults();
  }

  /** The twelve default prototypes are the pin's followed by the eleven
      built-in ones. */
  lemma DefaultsOfAllKinds(pin: PinTraits, p: seq<DeviceValue>)
    ensures p + [DefaultValue(ExternalPin(pin))] + Defaults(BuiltInKinds) == p + Defaults(AllKinds(pin))
  {
    assert Defaults(AllKinds(pin)) == [DefaultValue(ExternalPin(pin))] + Defaults(BuiltInKinds);
  }

  /** A character that is no prototype's identifier finds nothing. */
  lemma NotAnId(ks: seq<Kind>, c: char)
    requires c !in IdsOf(ks)
    ensures LookupValue(Defaults(ks), c).None?
  {
    var ids := IdsOf(ks);
    assert forall i :: 0 <= i < |ks| ==> ids[i] != c;
  }

  /** Among prototypes with pairwise different identifiers, each kind's
      identifier yields a default device of that kind. */
  lemma LookupDistinct(ks: seq<Kind>, i: nat)
    requires i < |ks| && Distinct(IdsOf(ks))
    ensures LookupValue(Defaults(ks), Id(ks[i])) == Some(DefaultValue(ks[i]))
  {
    NoEarlierId(ks, i);
    LookupDefaultAt(ks, i);
  }

  /** With pairwise different identifiers, no kind before position `i`
      shares the identifier of `ks[i]`. */
  lemma NoEarlierId(ks: seq<Kind>, i: nat)
    requires i < |ks| && Distinct(IdsOf(ks))
    ensures forall k :: 0 <= k < i ==> Id(ks[k]) != Id(ks[i])
  {
    var ids := IdsOf(ks);
    assert forall k :: 0 <= k < i ==> ids[k] != ids[i];
  }

  /** The first default prototype with a given identifier is found, and its
      clone is the default value itself. */
  lemma LookupDefaultAt(ks: seq<Kind>, i: nat)
    requires i < |ks| && forall k :: 0 <= k < i ==> Id(ks[k]) != Id(ks[i])
    ensures LookupValue(Defaults(ks), Id(ks[i])) == Some(DefaultValue(ks[i]))
  {
    var ps := Defaults(ks);
    LookupFindsFirst(ps, Id(ks[i]), i);
  }

  /** The header-inline factory registers one prototype per built-in
      identifier: each of them yields a default device of its own kind. */
  lemma LookupAfterRegisterBuiltIns(k: Kind)
    requires k in BuiltInKinds
    ensures LookupValue(Defaults(BuiltInKinds), Id(k)) == Some(DefaultValue(k))
  {
    BuiltInIdsDistinct();
    var i :| 0 <= i < |BuiltInKinds| && BuiltInKinds[i] == k;
    LookupDistinct(BuiltInKinds, i);
  }

  /** After `registerAllDevices` (in `devices.cpp`), the identifier of a
      built-in kind yields a default-constructed device of that kind, unless
      the external pin, registered first, uses the same character. */
  lemma LookupAfterRegisterAll(pin: PinTraits, k: Kind)
    requires k in BuiltInKinds
    ensures pin.id != Id(k) ==> LookupValue(Defaults(AllKinds(pin)), Id(k)) == Some(DefaultValue(k))
    ensures pin.id == Id(k) ==> LookupValue(Defaults(AllKinds(pin)), Id(k)) == Some(DefaultValue(ExternalPin(pin)))
  {
    var ps := Defaults(AllKinds(pin));
    assert ps[1..] == Defaults(BuiltInKinds);
    LookupAfterRegisterBuiltIns(k);
  }

  /** Identifiers are case-sensitive and only the listed letters are known:
      any other character (a lower-case letter, `X` for a subcircuit
      instance) finds nothing. */
  lemma UnknownIdentifier(pin: PinTraits, c: char)
    requires c !in "CRLDIVMQJGE" && c != pin.id
    ensures LookupValue(Defaults(AllKinds(pin)), c).None?
    ensures LookupValue(Defaults(BuiltInKinds), c).None?
  {
    BuiltInIds();
    NotAnId(BuiltInKinds, c);
    assert IdsOf(AllKinds(pin)) == [pin.id] + IdsOf(BuiltInKinds);
    NotAnId(AllKinds(pin), c);
  }

  class DeviceFactory {
    var registered: seq<Device>

    /** The values of the registered prototypes. */
    function Prototypes(): seq<DeviceValue>
      reads this, registered
    {
      Values(registered)
    }

    predicate Valid()
      reads this, registered
    {
      forall i :: 0 <= i < |registered| ==> registered[i].Valid()
    }

    constructor ()
      ensures registered == [] && Valid()
    {
      registered := [];
    }

    /** `registerDevice`: appends the prototype. */
    method RegisterDevice(dev: Device)
      requires Valid() && dev.Valid()
      modifies this
      ensures Valid()
      ensures registered == old(registered) + [dev]
      ensures Prototypes() == old(Prototypes()) + [dev.Value()]
    {
      registered := registered + [dev];
    }

    /** `registerDevice(new svX)`: registers a default-constructed
        prototype of kind `k`. */
    method RegisterNew(k: Kind)
      requires Valid() && KindOk(k)
      modifies this
      ensures Valid()
      ensures Prototypes() == old(Prototypes()) + [DefaultValue(k)]
    {
      var d := new Device(k);
      RegisterDevice(d);
    }

    /** `registerAllDevices` of `devices.cpp`: twelve prototypes, the
        external pin first. */
    method RegisterAllDevices(pin: PinTraits)
      requires Valid() && ShapeOk(pin.shape)
      modifies this
      ensures Valid()
      ensures Prototypes() == old(Prototypes()) + Defaults(AllKinds(pin))
    {
      RegisterNew(ExternalPin(pin));
      RegisterBuiltInDevices();
      DefaultsOfAllKinds(pin, old(Prototypes()));
    }

    /** `registerAllDevices` as written inline in both headers: the eleven
        built-in prototypes. */
    method RegisterBuiltInDevices()
      requires Valid()
      modifies this
      ensures Valid()
      ensures Prototypes() == old(Prototypes()) + Defaults(BuiltInKinds)
    {
      RegisterNew(Capacitor);
      RegisterNew(Resistor);
      RegisterNew(Inductor);
      RegisterNew(Diode);
      RegisterNew(ISource);
      RegisterNew(VSource);
      RegisterNew(MOS);
      RegisterNew(BJT);
      RegisterNew(JFET);
      RegisterNew(GSource);
      RegisterNew(ESource);
      BuiltInDefaultsAppended(old(Prototypes()));
    }

    /** `unregisterAllDevices`: empties the list; every lookup then fails. */
    method UnregisterAllDevices()
      modifies this
      ensures registered == [] && Valid()
      ensures forall c :: LookupValue(Prototypes(), c).None?
    {
      registered := [];
    }

    /** `getDeviceMatchingIdentifier(c)`: a fresh clone of the first
        prototype whose identifier is `c`, or null; the factory itself is
        left as it was. */
    method Lookup(c: char) returns (dev: Device?)
      requires Valid()
      ensures dev == null <==> LookupValue(Prototypes(), c).None?
      ensures dev != null ==> fresh(dev) && dev.Valid() && dev.Value() == LookupValue(Prototypes(), c).value
    {
      ghost var protos := Prototypes();
      var i := 0;
      while i < |registered|
        invariant i <= |registered|
        invariant forall k :: 0 <= k < i ==> Id(protos[k].kind) != c
      {
        if Id(registered[i].kind) == c {
          LookupFindsFirst(protos, c, i);
          dev := registered[i].Clone();
          assert Prototypes() == protos;
          return;
        }
        i := i + 1;
      }
      dev := null;
    }
  }
}
