/**
 * Validation of tickets read from storage. Every check is a total predicate over
 * the data model; the ticket check also asks whether the ticket's id is already
 * recorded, which only reads the allocator's used-id set.
 */
module Validation {
  import opened Wrappers
  import opened Data
  import opened Comparators

  const MaxCoordinateY: int := 332
  const MaxPassportLength: int := 28

  /** A valid pair has the y the coordinate comparator unboxes. */
  predicate IsValidCoordinates(c: Coordinates)
    ensures IsValidCoordinates(c) ==> c.y.Some?
  {
    c.y.Some? && c.y.value <= MaxCoordinateY
  }

  /** A valid location is exactly one the location comparator can read. */
  predicate IsValidLocation(l: Option<Location>)
    ensures IsValidLocation(l) <==> LocationComparable(l)
  {
    l.None? || (l.value.x.Some? && l.value.y.Some? && l.value.z.Some?)
  }

  /** A valid person has what the person comparator unboxes: the height and a readable location. */
  predicate IsValidPerson(p: Option<Person>)
    ensures IsValidPerson(p) && p.Some? ==> p.value.height.Some? && LocationComparable(p.value.location)
  {
    p.None? ||
    (p.value.height.Some? && p.value.height.value > 0.0
     && p.value.weight > 0
     && (p.value.passportID.None? || JavaLength(p.value.passportID.value) <= MaxPassportLength)
     && IsValidLocation(p.value.location))
  }

  /** `used` is the used-id set of the allocator handed to the check. */
  predicate IsValidTicket(t: Ticket, used: set<int32>)
    ensures IsValidTicket(t, used) ==> Comparable(t) && t.creationDate.Some?
  {
    t.id !in used
    && t.name.Some? && |t.name.value| > 0
    && t.coordinates.Some? && IsValidCoordinates(t.coordinates.value)
    && t.creationDate.Some?
    && t.price > 0.0
    && t.ticketType.Some?
    && IsValidPerson(t.person)
  }

  /**
   * The constraints the data classes document on their fields (not null, not
   * empty, greater than 0, at most 332, at most 28 Java chars), written
   * independently of the validator.
   */
  predicate DocumentedFieldConstraints(t: Ticket)
  {
    && t.id > 0
    && t.name != None && t.name != Some("")
    && t.coordinates != None && t.coordinates.value.y != None && t.coordinates.value.y.value <= 332
    && t.creationDate != None
    && t.price > 0.0
    && t.ticketType != None
    && match t.person
       case None => true
       case Some(p) =>
         && p.height != None && p.height.value > 0.0
         && p.weight > 0
         && (match p.passportID case None => true case Some(s) => JavaLength(s) <= 28)
         && (match p.location
             case None => true
             case Some(l) => l.x != None && l.y != None && l.z != None)
  }

  /**
   * The validator accepts exactly the tickets with an unrecorded id that meet
   * every documented field constraint except "id greater than 0", which it does
   * not check.
   */
  lemma ValidatorMatchesDocumentation(t: Ticket, used: set<int32>)
    ensures IsValidTicket(t, used) <==> t.id !in used && DocumentedFieldConstraints(t.(id := 1))
  {
  }

  /** Validity never depends on the handle (object identity) or the owner. */
  lemma ValidityIgnoresIdentityAndOwner(t: Ticket, used: set<int32>, h: nat, o: Option<string>)
    ensures IsValidTicket(t, used) == IsValidTicket(t.(handle := h, owner := o), used)
  {
  }

  /** A ticket whose id is recorded is never valid, whatever its other fields. */
  lemma RecordedIdIsInvalid(t: Ticket, used: set<int32>)
    requires t.id in used
    ensures !IsValidTicket(t, used)
  {
  }

  /** The id check is the only part of validity that depends on the allocator. */
  lemma ValidityIsMonotoneInUsedIds(t: Ticket, used: set<int32>, more: set<int32>)
    requires IsValidTicket(t, used + more)
    ensures IsValidTicket(t, used)
  {
  }

  /**
   * The passport limit counts UTF-16 code units: fifteen characters above U+FFFF
   * are thirty units and are rejected, although they are only fifteen characters.
   */
  lemma LongCharactersCountTwiceInPassport(p: Person, s: string)
    requires p.height == Some(1.0) && p.weight == 1 && p.location == None && p.passportID == Some(s)
    requires |s| == 15 && forall k :: 0 <= k < |s| ==> s[k] as int >= 0x10000
    ensures !IsValidPerson(Some(p))
  {
    SupplementaryCountsTwice(s);
  }

  /** A ticket with id 0 and otherwise complete fields passes the validator. */
  lemma ZeroIdPasses()
    ensures IsValidTicket(
      Ticket(0, 0, Some("a"), Some(Coordinates(0.0, Some(0))), Some(Date(2024, 1, 1)), 1.0, Some(VIP), None, None), {})
  {
  }
}
