/**
 * Bounds on a dihedral angle for structure calculation: validation of the
 * bounds given in degrees, their conversion to radians, the atom the bound
 * applies to, and the registry shared by all bounds that maps an atom's full
 * name to the angle property named for it.
 */
module AngleBoundaries {
  import opened Wrappers

  /** An angle property, known by its name; its targets and widths are not part of this model. */
  datatype AngleProp = AngleProp(angleName: string)

  /** Math.PI as a decimal. */
  const Pi: real := 3.141592653589793

  function Radians(degrees: real): real
  {
    degrees * (Pi / 180.0)
  }

  /**
   * The bounds both constructors accept, in radians. The source rejects a
   * lower bound below -180, an upper bound above 360, an upper below the
   * lower, and two bounds both above 180; what is left is a lower bound in
   * [-180, 180] and an upper bound between it and 360.
   */
  function CheckedBounds(lower: real, upper: real): (r: Result<(real, real)>)
    ensures r.Ok? <==> -180.0 <= lower <= 180.0 && lower <= upper <= 360.0
    ensures r.Ok? ==> r.value.0 * 180.0 == lower * Pi && r.value.1 * 180.0 == upper * Pi
    ensures r.Ok? ==> -Pi <= r.value.0 <= Pi && r.value.0 <= r.value.1 <= 2.0 * Pi
    ensures r.Err? ==> r.error == IllegalArgument("Invalid angle bounds")
  {
    if lower < -180.0 || upper > 360.0 || upper < lower then Err(IllegalArgument("Invalid angle bounds"))
    else if lower > 180.0 && upper > 180.0 then Err(IllegalArgument("Invalid angle bounds"))
    else Ok((Radians(lower), Radians(upper)))
  }

  /** The shared map from an atom's full name to the angle property registered for it; a registered null is None. */
  class BoundaryRegistry {
    var boundaries: map<string, Option<AngleProp>>

    constructor()
      ensures boundaries == map[]
    {
      boundaries := map[];
    }
  }

  /** AngleProp.map.get: the property under that name, or null. */
  function Lookup(props: map<string, AngleProp>, angleName: string): Option<AngleProp>
  {
    if angleName in props then Some(props[angleName]) else None
  }

  /**
   * The property an unnamed bound adopts for an atom: none when the atom is
   * not registered, otherwise the property under the registered property's
   * name; a registered null cannot give its name (a null dereference).
   */
  function Adopted(boundaries: map<string, Option<AngleProp>>, fullName: string, props: map<string, AngleProp>): (r: Result<Option<AngleProp>>)
    ensures r.Err? <==> fullName in boundaries && boundaries[fullName].None?
    ensures fullName !in boundaries ==> r == Ok(None)
    ensures r.Ok? && r.value.Some? ==> fullName in boundaries && boundaries[fullName].value.angleName in props
  {
    if fullName !in boundaries then Ok(None)
    else match boundaries[fullName]
      case None => Err(NullPointer("angleName"))
      case Some(p) => Ok(Lookup(props, p.angleName))
  }

  /** The registry after every name in names is mapped to prop, the later names last. */
  function Registering(boundaries: map<string, Option<AngleProp>>, names: seq<string>, prop: Option<AngleProp>)
    : (r: map<string, Option<AngleProp>>)
    ensures r.Keys == boundaries.Keys + set n | n in names
    ensures forall n | n in names :: r[n] == prop
    ensures forall k | k in boundaries && k !in names :: r[k] == boundaries[k]
  {
    if |names| == 0 then boundaries
    else Registering(boundaries, names[..|names| - 1], prop)[names[|names| - 1] := prop]
  }

  class AngleBoundary {
    const lower: real
    const upper: real
    const scale: real
    var atom: Option<string>
    var angleProp: Option<AngleProp>
    var index: int

    /** The fields as the source's constructors set them; index starts at -1. */
    constructor(lower: real, upper: real, scale: real, atom: Option<string>, angleProp: Option<AngleProp>)
      ensures this.lower == lower && this.upper == upper && this.scale == scale
      ensures this.atom == atom && this.angleProp == angleProp && index == -1
    {
      this.lower := lower;
      this.upper := upper;
      this.scale := scale;
      this.atom := atom;
      this.angleProp := angleProp;
      index := -1;
    }

    method SetIndex(index: int)
      modifies this`index
      ensures this.index == index
    {
      this.index := index;
    }
  }

  /**
   * The constructor without an angle name. atoms are the full names of the
   * atoms atomName matches, in the molecule's order. Invalid bounds and an
   * atom name matching nothing are rejected; the bound takes the first atom
   * and adopts the property registered for it.
   */
  method NewAngleBoundary(atomName: string, lower: real, upper: real, scale: real, atoms: seq<string>,
                          registry: BoundaryRegistry, props: map<string, AngleProp>) returns (r: Result<AngleBoundary>)
    ensures CheckedBounds(lower, upper).Err? ==> r == Err(CheckedBounds(lower, upper).error)
    ensures CheckedBounds(lower, upper).Ok? && |atoms| == 0 ==> r == Err(IllegalArgument("Invalid atom " + atomName))
    ensures CheckedBounds(lower, upper).Ok? && |atoms| > 0 && Adopted(registry.boundaries, atoms[0], props).Err? ==>
      r == Err(Adopted(registry.boundaries, atoms[0], props).error)
    ensures CheckedBounds(lower, upper).Ok? && |atoms| > 0 && Adopted(registry.boundaries, atoms[0], props).Ok? ==>
      r.Ok? && fresh(r.value)
      && (r.value.lower, r.value.upper) == CheckedBounds(lower, upper).value && r.value.scale == scale
      && r.value.atom == Some(atoms[0]) && r.value.angleProp == Adopted(registry.boundaries, atoms[0], props).value
      && r.value.index == -1
  {
    var bounds := CheckedBounds(lower, upper);
    if bounds.Err? {
      return Err(bounds.error);
    }
    if |atoms| == 0 {
      return Err(IllegalArgument("Invalid atom " + atomName));
    }
    var adopted := Adopted(registry.boundaries, atoms[0], props);
    if adopted.Err? {
      return Err(adopted.error);
    }
    var b := new AngleBoundary(bounds.value.0, bounds.value.1, scale, Some(atoms[0]), adopted.value);
    r := Ok(b);
  }

  /**
   * The constructor with an angle name: after validating the bounds it takes
   * the property under that name (or null) and registers every matched atom
   * under it; the bound keeps the last atom. Invalid bounds leave the
   * registry as it was.
   */
  method NewNamedAngleBoundary(atomName: string, lower: real, upper: real, scale: real, angleName: string,
                               atoms: seq<string>, registry: BoundaryRegistry, props: map<string, AngleProp>)
    returns (r: Result<AngleBoundary>)
    modifies registry
    ensures CheckedBounds(lower, upper).Err? ==>
      r == Err(CheckedBounds(lower, upper).error) && registry.boundaries == old(registry.boundaries)
    ensures CheckedBounds(lower, upper).Ok? ==>
      registry.boundaries == Registering(old(registry.boundaries), atoms, Lookup(props, angleName))
      && r.Ok? && fresh(r.value)
      && (r.value.lower, r.value.upper) == CheckedBounds(lower, upper).value && r.value.scale == scale
      && r.value.atom == (if |atoms| == 0 then None else Some(atoms[|atoms| - 1]))
      && r.value.angleProp == Lookup(props, angleName) && r.value.index == -1
  {
    var bounds := CheckedBounds(lower, upper);
    if bounds.Err? {
      return Err(bounds.error);
    }
    var angleProp := Lookup(props, angleName);
    var atom: Option<string> := None;
    var i := 0;
    while i < |atoms|
      invariant 0 <= i <= |atoms|
      invariant registry.boundaries == Registering(old(registry.boundaries), atoms[..i], angleProp)
      invariant atom == if i == 0 then None else Some(atoms[i - 1])
    {
      atom := Some(atoms[i]);
      registry.boundaries := registry.boundaries[atoms[i] := angleProp];
      assert atoms[..i + 1][..i] == atoms[..i];
      i := i + 1;
    }
    assert atoms[..i] == atoms;
    var b := new AngleBoundary(bounds.value.0, bounds.value.1, scale, atom, angleProp);
    r := Ok(b);
  }

  /**
   * A named bound registers its atoms so that an unnamed bound on one of
   * them later adopts the same property; when the name was unknown the
   * registered null makes the unnamed bound fail.
   */
  lemma {:induction false} NamedThenUnnamed(boundaries: map<string, Option<AngleProp>>, atoms: seq<string>,
                                            angleName: string, props: map<string, AngleProp>, k: nat)
    requires k < |atoms|
    requires angleName in props ==> props[angleName].angleName == angleName
    ensures var registered := Registering(boundaries, atoms, Lookup(props, angleName));
      Adopted(registered, atoms[k], props) == if angleName in props then Ok(Some(props[angleName])) else Err(NullPointer("angleName"))
  {
    var registered := Registering(boundaries, atoms, Lookup(props, angleName));
    assert atoms[k] in atoms;
    assert registered[atoms[k]] == Lookup(props, angleName);
  }
}
