/** Monthly-ticket registrations (`registered_vehicles`), reduced to the set
    of registered plates, the table's unique key. */
module Registry {
  import opened Basics
  import opened Plate

  type Registry = set<string>

  /** Every stored plate is canonical, which holds of every registry built
      from the empty one by the operations below. */
  predicate AllCanonical(reg: Registry) {
    forall p :: p in reg ==> IsCanonical(p)
  }

  /** `is_plate_registered(plate)`. */
  function IsPlateRegistered(reg: Registry, plate: string): (b: bool)
    ensures b ==> plate in reg
    ensures plate == [] ==> !b
    ensures plate != [] && plate in reg ==> b
  {
    if plate == [] then false else plate in reg
  }

  /** The answers of `api_add_registered`. */
  datatype AddOutcome = Added | InvalidPlate | PlateExists

  datatype AddReply = AddReply(registry: Registry, outcome: AddOutcome)

  /** `api_add_registered`: normalise the submitted text, reject it when it
      is not a plate, reject it when the unique key already exists, and
      otherwise store the normalised plate. A missing "plate" field is the
      empty text. */
  function AddRegistered(reg: Registry, input: string): (r: AddReply)
    ensures r.outcome == InvalidPlate <==> NormalizePlate(input).None?
    ensures r.outcome == PlateExists <==> NormalizePlate(input).Some? && NormalizePlate(input).value in reg
    ensures r.outcome == Added ==> r.registry == reg + {NormalizePlate(input).value}
    ensures r.outcome == Added ==> NormalizePlate(input).value !in reg
    ensures r.outcome != Added ==> r.registry == reg
    ensures AllCanonical(reg) ==> AllCanonical(r.registry)
  {
    match NormalizePlate(input)
    case None => AddReply(reg, InvalidPlate)
    case Some(plate) =>
      if plate in reg then AddReply(reg, PlateExists)
      else AddReply(reg + {plate}, Added)
  }

  /** `api_del_registered(plate)`: removes exactly the given key, which is
      not normalised first; deleting an absent key is still "ok". */
  function DelRegistered(reg: Registry, plate: string): (r: Registry)
    ensures plate !in r
    ensures forall p :: p in reg && p != plate ==> p in r
    ensures r <= reg
    ensures AllCanonical(reg) ==> AllCanonical(r)
  {
    reg - {plate}
  }

  /** Under the invariant, a registered plate is canonical; in particular the
      empty plate and any non-canonical text are never registered, so the
      emptiness test of `is_plate_registered` only restates membership. */
  lemma RegisteredIsCanonical(reg: Registry, plate: string)
    requires AllCanonical(reg)
    ensures IsPlateRegistered(reg, plate) ==> IsCanonical(plate)
    ensures IsPlateRegistered(reg, plate) <==> plate in reg
  {
  }

  /** Adding a new plate and then deleting its normalised form restores the
      registry. */
  lemma AddThenDelete(reg: Registry, input: string)
    requires AddRegistered(reg, input).outcome == Added
    ensures DelRegistered(AddRegistered(reg, input).registry, NormalizePlate(input).value) == reg
  {
  }

  /** Registration is idempotent: submitting the same text twice stores it
      once and the second request reports that the plate exists. */
  lemma AddTwice(reg: Registry, input: string)
    requires NormalizePlate(input).Some?
    ensures var once := AddRegistered(reg, input);
      var twice := AddRegistered(once.registry, input);
      twice.outcome == PlateExists && twice.registry == once.registry
  {
  }

  /** Deletion matches the stored key literally: asking to delete the
      submitted spelling "30a-123.45" of the registered plate "30A12345"
      leaves the plate registered. */
  lemma DeleteDoesNotNormalise()
    ensures "30A12345" in DelRegistered({"30A12345"}, "30a-123.45")
  {
  }
}
