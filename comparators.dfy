/**
 * The three ticket orderings: the default one (by name, coordinates, price, type
 * and then the person, nulls first), the one on coordinates alone, and the one by
 * creation date. Each returns Java's comparator value; only its sign is meant to
 * be read, but the model keeps the exact value.
 */
module Comparators {
  import opened Wrappers
  import opened Data

  /** Float.compare / Long.compare / Integer.compare on non-NaN values: -1, 0 or 1. */
  function CompareReal(a: real, b: real): (c: int)
  {
    if a < b then -1 else if a > b then 1 else 0
  }

  function CompareInt(a: int, b: int): (c: int)
  {
    if a < b then -1 else if a > b then 1 else 0
  }

  /**
   * Lexicographic comparison of code-unit sequences: the difference of the first
   * differing units, or the difference of the lengths when one is a prefix of the other.
   */
  function CompareUnits(a: seq<int>, b: seq<int>): (c: int)
    ensures (c == 0) == (a == b)
  {
    if |a| == 0 || |b| == 0 then |a| - |b|
    else if a[0] != b[0] then a[0] - b[0]
    else
      var c := CompareUnits(a[1..], b[1..]);
      assert a == [a[0]] + a[1..] && b == [b[0]] + b[1..];
      c
  }

  /** String.compareTo, which compares the UTF-16 code units of the two strings; 0 exactly for equal strings. */
  function StringCompare(a: string, b: string): (c: int)
    ensures c == 0 <==> a == b
  {
    Utf16Injective(a, b);
    CompareUnits(Utf16(a), Utf16(b))
  }

  lemma {:induction false} CompareUnitsAntisymmetric(a: seq<int>, b: seq<int>)
    ensures CompareUnits(a, b) == -CompareUnits(b, a)
  {
    if |a| > 0 && |b| > 0 && a[0] == b[0] {
      CompareUnitsAntisymmetric(a[1..], b[1..]);
    }
  }

  lemma {:induction false} CompareUnitsTransitive(a: seq<int>, b: seq<int>, c: seq<int>)
    ensures CompareUnits(a, b) <= 0 && CompareUnits(b, c) <= 0 ==> CompareUnits(a, c) <= 0
    ensures CompareUnits(a, b) < 0 && CompareUnits(b, c) <= 0 ==> CompareUnits(a, c) < 0
    ensures CompareUnits(a, b) <= 0 && CompareUnits(b, c) < 0 ==> CompareUnits(a, c) < 0
  {
    if |a| > 0 && |b| > 0 && |c| > 0 && a[0] == b[0] && b[0] == c[0] {
      CompareUnitsTransitive(a[1..], b[1..], c[1..]);
    }
  }

  lemma StringCompareAntisymmetric(a: string, b: string)
    ensures StringCompare(a, b) == -StringCompare(b, a)
  {
    CompareUnitsAntisymmetric(Utf16(a), Utf16(b));
  }

  lemma StringCompareTransitive(a: string, b: string, c: string)
    ensures StringCompare(a, b) <= 0 && StringCompare(b, c) <= 0 ==> StringCompare(a, c) <= 0
    ensures StringCompare(a, b) < 0 && StringCompare(b, c) <= 0 ==> StringCompare(a, c) < 0
    ensures StringCompare(a, b) <= 0 && StringCompare(b, c) < 0 ==> StringCompare(a, c) < 0
  {
    CompareUnitsTransitive(Utf16(a), Utf16(b), Utf16(c));
  }

  /**
   * Code units, not characters, decide: U+10000 is stored as the surrogate
   * U+D800 and so sorts below U+E000, although it is the greater character.
   */
  lemma SurrogatesSortBelowPrivateUse()
    ensures StringCompare("\U{10000}", "\U{E000}") == 0xD800 - 0xE000
  {
    assert Utf16("\U{10000}") == [0xD800, 0xDC00];
    assert Utf16("\U{E000}") == [0xE000];
  }

  // ---------------------------------------------------------------- coordinates

  /** CoordinatesComparator.compare: x first, then y (y is unboxed, so it must be present). */
  function CompareCoordinates(c1: Coordinates, c2: Coordinates): (c: int)
    requires c1.y.Some? && c2.y.Some?
    ensures c != 0 <==> c1 != c2
    ensures c1.x != c2.x ==> (c < 0 <==> c1.x < c2.x)
    ensures c1.x == c2.x ==> (c < 0 <==> c1.y.value < c2.y.value) && (c > 0 <==> c1.y.value > c2.y.value)
  {
    var xCompare := CompareReal(c1.x, c2.x);
    if xCompare != 0 then xCompare else CompareInt(c1.y.value, c2.y.value)
  }

  // ---------------------------------------------------------------- by date

  /** LocalDate.compareTo: year difference, else month difference, else day difference. */
  function CompareDates(d1: Date, d2: Date): (c: int)
    ensures c < 0 <==> Earlier(d1, d2)
    ensures c > 0 <==> Earlier(d2, d1)
    ensures c == 0 <==> d1 == d2
  {
    if d1.year != d2.year then d1.year - d2.year
    else if d1.month != d2.month then d1.month - d2.month
    else d1.day - d2.day
  }

  /** Calendar order on dates, written as a lexicographic order on (year, month, day). */
  predicate Earlier(d1: Date, d2: Date)
  {
    d1.year < d2.year
    || (d1.year == d2.year && d1.month < d2.month)
    || (d1.year == d2.year && d1.month == d2.month && d1.day < d2.day)
  }

  /** TicketByDateComparator.compare: the creation dates decide, nothing else. */
  function CompareByDate(t1: Ticket, t2: Ticket): (c: int)
    requires t1.creationDate.Some? && t2.creationDate.Some?
    ensures c < 0 <==> Earlier(t1.creationDate.value, t2.creationDate.value)
    ensures c > 0 <==> Earlier(t2.creationDate.value, t1.creationDate.value)
    ensures c == 0 <==> t1.creationDate == t2.creationDate
  {
    CompareDates(t1.creationDate.value, t2.creationDate.value)
  }

  lemma CoordinatesAntisymmetric(c1: Coordinates, c2: Coordinates)
    requires c1.y.Some? && c2.y.Some?
    ensures CompareCoordinates(c1, c2) == -CompareCoordinates(c2, c1)
  {
  }

  lemma ByDateAntisymmetric(t1: Ticket, t2: Ticket)
    requires t1.creationDate.Some? && t2.creationDate.Some?
    ensures CompareByDate(t1, t2) == -CompareByDate(t2, t1)
  {
  }

  lemma ByDateTransitive(a: Ticket, b: Ticket, c: Ticket)
    requires a.creationDate.Some? && b.creationDate.Some? && c.creationDate.Some?
    ensures CompareByDate(a, b) >= 0 && CompareByDate(b, c) >= 0 ==> CompareByDate(a, c) >= 0
  {
  }

  // ---------------------------------------------------------------- default order

  /**
   * The fields the default comparison unboxes or dereferences are present: name,
   * coordinates and their y, type, and, when there is a person, its height and
   * every coordinate of its location.
   */
  predicate Comparable(t: Ticket)
  {
    && t.name.Some?
    && t.coordinates.Some? && t.coordinates.value.y.Some?
    && t.ticketType.Some?
    && (t.person.Some? ==>
          t.person.value.height.Some?
          && (t.person.value.location.Some? ==>
                var l := t.person.value.location.value;
                l.x.Some? && l.y.Some? && l.z.Some?))
  }

  /**
   * TicketComparator.compare, clause by clause. The result is 0 exactly when all
   * compared fields, nested ones included, are equal.
   */
  function CompareTickets(t1: Ticket, t2: Ticket): (c: int)
    requires Comparable(t1) && Comparable(t2)
    ensures c == 0 <==> SameComparedFields(t1, t2)
  {
    OrdinalIsInjective(t1.ticketType.value, t2.ticketType.value);
    var nameCompare := StringCompare(t1.name.value, t2.name.value);
    if nameCompare != 0 then nameCompare else
    var xCompare := CompareReal(t1.coordinates.value.x, t2.coordinates.value.x);
    if xCompare != 0 then xCompare else
    var yCompare := CompareInt(t1.coordinates.value.y.value, t2.coordinates.value.y.value);
    if yCompare != 0 then yCompare else
    var priceCompare := CompareReal(t1.price, t2.price);
    if priceCompare != 0 then priceCompare else
    var typeCompare := Ordinal(t1.ticketType.value) - Ordinal(t2.ticketType.value);
    if typeCompare != 0 then typeCompare else
    ComparePersons(t1.person, t2.person)
  }

  /** The person clauses of TicketComparator.compare: an absent person first, then height, weight, passport (null first) and location. */
  function ComparePersons(p1: Option<Person>, p2: Option<Person>): (c: int)
    requires p1.Some? ==> p1.value.height.Some? && LocationComparable(p1.value.location)
    requires p2.Some? ==> p2.value.height.Some? && LocationComparable(p2.value.location)
    ensures c == 0 <==> p1 == p2
    ensures p1.None? && p2.Some? ==> c < 0
    ensures p1.Some? && p2.None? ==> c > 0
  {
    if p1.None? && p2.Some? then -1
    else if p1.Some? && p2.None? then 1
    else if p1.None? then 0
    else
      var a, b := p1.value, p2.value;
      var heightCompare := CompareReal(a.height.value, b.height.value);
      if heightCompare != 0 then heightCompare else
      var weightCompare := CompareInt(a.weight, b.weight);
      if weightCompare != 0 then weightCompare else
      if a.passportID.None? && b.passportID.Some? then -1
      else if a.passportID.Some? && b.passportID.None? then 1
      else
        var passportCompare :=
          if a.passportID.Some? then StringCompare(a.passportID.value, b.passportID.value) else 0;
        if passportCompare != 0 then passportCompare else
        CompareLocations(a.location, b.location)
  }

  predicate LocationComparable(l: Option<Location>)
  {
    l.Some? ==> l.value.x.Some? && l.value.y.Some? && l.value.z.Some?
  }

  /** The location clauses of TicketComparator.compare: an absent location first, then x, y and z. */
  function CompareLocations(l1: Option<Location>, l2: Option<Location>): (c: int)
    requires LocationComparable(l1) && LocationComparable(l2)
    ensures c == 0 <==> l1 == l2
    ensures l1.None? && l2.Some? ==> c < 0
    ensures l1.Some? && l2.None? ==> c > 0
  {
    if l1.None? && l2.Some? then -1
    else if l1.Some? && l2.None? then 1
    else if l1.None? then 0
    else
      var xCompare := CompareInt(l1.value.x.value, l2.value.x.value);
      if xCompare != 0 then xCompare else
      var yCompare := CompareInt(l1.value.y.value, l2.value.y.value);
      if yCompare != 0 then yCompare else
      CompareInt(l1.value.z.value, l2.value.z.value)
  }

  // ---------------------------------------------------------------- reference order

  /**
   * An independent statement of the default order: every ticket has a sort key,
   * a sequence of atoms of fixed length, and tickets are ordered by comparing their
   * keys lexicographically. `Absent` sorts before `Present`, which is how a null
   * sorts before a non-null value; atoms of different kinds never meet at the same
   * position of two keys.
   */
  datatype Atom = Absent | Present | Str(s: string) | Num(r: real) | Whole(i: int) | Ord(n: int)

  function Rank(a: Atom): int
  {
    match a
    case Absent => 0
    case Present => 1
    case Str(_) => 2
    case Num(_) => 3
    case Whole(_) => 4
    case Ord(_) => 5
  }

  function CompareAtoms(a: Atom, b: Atom): int
  {
    if Rank(a) != Rank(b) then Rank(a) - Rank(b)
    else match a
      case Str(s) => StringCompare(s, b.s)
      case Num(r) => CompareReal(r, b.r)
      case Whole(i) => CompareInt(i, b.i)
      case Ord(n) => n - b.n
      case _ => 0
  }

  function CompareKeys(k1: seq<Atom>, k2: seq<Atom>): int
  {
    if |k1| == 0 || |k2| == 0 then |k1| - |k2|
    else if CompareAtoms(k1[0], k2[0]) != 0 then CompareAtoms(k1[0], k2[0])
    else CompareKeys(k1[1..], k2[1..])
  }

  function LocationKey(l: Option<Location>): (k: seq<Atom>)
    requires LocationComparable(l)
    ensures |k| == 4
  {
    match l
    case None => [Absent, Absent, Absent, Absent]
    case Some(v) => [Present, Whole(v.x.value), Whole(v.y.value), Whole(v.z.value)]
  }

  function PassportKey(p: Option<string>): (k: seq<Atom>)
    ensures |k| == 2
  {
    match p
    case None => [Absent, Absent]
    case Some(s) => [Present, Str(s)]
  }

  function PersonKey(p: Option<Person>): (k: seq<Atom>)
    requires p.Some? ==> p.value.height.Some? && LocationComparable(p.value.location)
    ensures |k| == 9
  {
    match p
    case None => [Absent, Absent, Absent, Absent, Absent, Absent, Absent, Absent, Absent]
    case Some(v) =>
      [Present, Num(v.height.value), Whole(v.weight)] + PassportKey(v.passportID) + LocationKey(v.location)
  }

  function Key(t: Ticket): (k: seq<Atom>)
    requires Comparable(t)
    ensures |k| == 14
  {
    [Str(t.name.value), Num(t.coordinates.value.x), Whole(t.coordinates.value.y.value),
     Num(t.price), Ord(Ordinal(t.ticketType.value))]
    + PersonKey(t.person)
  }

  // -------- facts about the lexicographic key order

  lemma {:induction false} CompareKeysAppend(p: seq<Atom>, q: seq<Atom>, r: seq<Atom>, s: seq<Atom>)
    requires |p| == |q|
    ensures CompareKeys(p + r, q + s) ==
      if CompareKeys(p, q) != 0 then CompareKeys(p, q) else CompareKeys(r, s)
  {
    if |p| > 0 {
      assert (p + r)[0] == p[0] && (q + s)[0] == q[0];
      assert (p + r)[1..] == p[1..] + r && (q + s)[1..] == q[1..] + s;
      CompareKeysAppend(p[1..], q[1..], r, s);
    } else {
      assert p + r == r && q + s == s;
    }
  }

  lemma CompareKeysCons(a: Atom, b: Atom, r: seq<Atom>, s: seq<Atom>)
    ensures CompareKeys([a] + r, [b] + s) ==
      if CompareAtoms(a, b) != 0 then CompareAtoms(a, b) else CompareKeys(r, s)
  {
    assert ([a] + r)[0] == a && ([b] + s)[0] == b;
    assert ([a] + r)[1..] == r && ([b] + s)[1..] == s;
  }

  lemma CompareAtomsAntisymmetric(a: Atom, b: Atom)
    ensures CompareAtoms(a, b) == -CompareAtoms(b, a)
  {
    if a.Str? && b.Str? { StringCompareAntisymmetric(a.s, b.s); }
  }

  lemma CompareAtomsZeroIffEqual(a: Atom, b: Atom)
    ensures CompareAtoms(a, b) == 0 <==> a == b
  {
    if a.Str? && b.Str? { assert StringCompare(a.s, b.s) == 0 <==> a.s == b.s; }
  }

  lemma CompareAtomsTransitive(a: Atom, b: Atom, c: Atom)
    ensures CompareAtoms(a, b) <= 0 && CompareAtoms(b, c) <= 0 ==> CompareAtoms(a, c) <= 0
    ensures CompareAtoms(a, b) < 0 && CompareAtoms(b, c) <= 0 ==> CompareAtoms(a, c) < 0
    ensures CompareAtoms(a, b) <= 0 && CompareAtoms(b, c) < 0 ==> CompareAtoms(a, c) < 0
  {
    if a.Str? && b.Str? && c.Str? { StringCompareTransitive(a.s, b.s, c.s); }
  }

  lemma {:induction false} CompareKeysAntisymmetric(k1: seq<Atom>, k2: seq<Atom>)
    ensures CompareKeys(k1, k2) == -CompareKeys(k2, k1)
  {
    if |k1| > 0 && |k2| > 0 {
      CompareAtomsAntisymmetric(k1[0], k2[0]);
      CompareKeysAntisymmetric(k1[1..], k2[1..]);
    }
  }

  lemma {:induction false} CompareKeysZeroIffEqual(k1: seq<Atom>, k2: seq<Atom>)
    ensures CompareKeys(k1, k2) == 0 <==> k1 == k2
  {
    if |k1| > 0 && |k2| > 0 {
      CompareAtomsZeroIffEqual(k1[0], k2[0]);
      CompareKeysZeroIffEqual(k1[1..], k2[1..]);
      assert k1 == [k1[0]] + k1[1..] && k2 == [k2[0]] + k2[1..];
    }
  }

  lemma {:induction false} CompareKeysTransitive(k1: seq<Atom>, k2: seq<Atom>, k3: seq<Atom>)
    ensures CompareKeys(k1, k2) <= 0 && CompareKeys(k2, k3) <= 0 ==> CompareKeys(k1, k3) <= 0
    ensures CompareKeys(k1, k2) < 0 && CompareKeys(k2, k3) <= 0 ==> CompareKeys(k1, k3) < 0
    ensures CompareKeys(k1, k2) <= 0 && CompareKeys(k2, k3) < 0 ==> CompareKeys(k1, k3) < 0
  {
    if |k1| > 0 && |k2| > 0 && |k3| > 0 {
      CompareAtomsTransitive(k1[0], k2[0], k3[0]);
      CompareAtomsZeroIffEqual(k1[0], k2[0]);
      CompareAtomsZeroIffEqual(k2[0], k3[0]);
      CompareKeysTransitive(k1[1..], k2[1..], k3[1..]);
    }
  }

  // -------- the comparator agrees with the key order

  lemma LocationsMatchKeys(l1: Option<Location>, l2: Option<Location>)
    requires LocationComparable(l1) && LocationComparable(l2)
    ensures CompareLocations(l1, l2) == CompareKeys(LocationKey(l1), LocationKey(l2))
  {
    var k1, k2 := LocationKey(l1), LocationKey(l2);
    assert k1 == [k1[0]] + ([k1[1]] + ([k1[2]] + ([k1[3]] + [])));
    assert k2 == [k2[0]] + ([k2[1]] + ([k2[2]] + ([k2[3]] + [])));
    CompareKeysCons(k1[0], k2[0], [k1[1]] + ([k1[2]] + ([k1[3]] + [])), [k2[1]] + ([k2[2]] + ([k2[3]] + [])));
    CompareKeysCons(k1[1], k2[1], [k1[2]] + ([k1[3]] + []), [k2[2]] + ([k2[3]] + []));
    CompareKeysCons(k1[2], k2[2], [k1[3]] + [], [k2[3]] + []);
    CompareKeysCons(k1[3], k2[3], [], []);
  }

  lemma PassportsMatchKeys(x: Option<string>, y: Option<string>)
    ensures CompareKeys(PassportKey(x), PassportKey(y)) ==
      if x.None? && y.Some? then -1
      else if x.Some? && y.None? then 1
      else if x.Some? then StringCompare(x.value, y.value)
      else 0
  {
    var q1, q2 := PassportKey(x), PassportKey(y);
    assert q1 == [q1[0]] + ([q1[1]] + []) && q2 == [q2[0]] + ([q2[1]] + []);
    CompareKeysCons(q1[0], q2[0], [q1[1]] + [], [q2[1]] + []);
    CompareKeysCons(q1[1], q2[1], [], []);
  }

  /** After height and weight tie: a missing passport first, then the passport text, then the location. */
  lemma PassportThenLocationMatchKeys(a: Person, b: Person)
    requires LocationComparable(a.location) && LocationComparable(b.location)
    ensures CompareKeys(PassportKey(a.passportID) + LocationKey(a.location), PassportKey(b.passportID) + LocationKey(b.location)) ==
      if a.passportID.None? && b.passportID.Some? then -1
      else if a.passportID.Some? && b.passportID.None? then 1
      else
        var passportCompare :=
          if a.passportID.Some? then StringCompare(a.passportID.value, b.passportID.value) else 0;
        if passportCompare != 0 then passportCompare else CompareLocations(a.location, b.location)
  {
    CompareKeysAppend(PassportKey(a.passportID), PassportKey(b.passportID), LocationKey(a.location), LocationKey(b.location));
    PassportsMatchKeys(a.passportID, b.passportID);
    LocationsMatchKeys(a.location, b.location);
  }

  /** Two present persons' keys: height, then weight, then the passport and location part. */
  lemma PresentPersonKeys(a: Person, b: Person)
    requires a.height.Some? && LocationComparable(a.location)
    requires b.height.Some? && LocationComparable(b.location)
    ensures var rest1, rest2 := PassportKey(a.passportID) + LocationKey(a.location), PassportKey(b.passportID) + LocationKey(b.location);
      CompareKeys(PersonKey(Some(a)), PersonKey(Some(b))) ==
        var heightCompare := CompareReal(a.height.value, b.height.value);
        if heightCompare != 0 then heightCompare else
        var weightCompare := CompareInt(a.weight, b.weight);
        if weightCompare != 0 then weightCompare else CompareKeys(rest1, rest2)
  {
    var rest1, rest2 := PassportKey(a.passportID) + LocationKey(a.location), PassportKey(b.passportID) + LocationKey(b.location);
    var weighed1, weighed2 := [Whole(a.weight)] + rest1, [Whole(b.weight)] + rest2;
    var measured1, measured2 := [Num(a.height.value)] + weighed1, [Num(b.height.value)] + weighed2;
    assert PersonKey(Some(a)) == [Present] + measured1;
    assert PersonKey(Some(b)) == [Present] + measured2;
    CompareKeysCons(Present, Present, measured1, measured2);
    CompareKeysCons(Num(a.height.value), Num(b.height.value), weighed1, weighed2);
    CompareKeysCons(Whole(a.weight), Whole(b.weight), rest1, rest2);
  }

  /** Two present persons: height, weight, passport and location, in that order. */
  lemma PresentPersonsMatchKeys(a: Person, b: Person)
    requires a.height.Some? && LocationComparable(a.location)
    requires b.height.Some? && LocationComparable(b.location)
    ensures ComparePersons(Some(a), Some(b)) == CompareKeys(PersonKey(Some(a)), PersonKey(Some(b)))
  {
    PresentPersonKeys(a, b);
    PassportThenLocationMatchKeys(a, b);
  }

  lemma PersonsMatchKeys(p1: Option<Person>, p2: Option<Person>)
    requires p1.Some? ==> p1.value.height.Some? && LocationComparable(p1.value.location)
    requires p2.Some? ==> p2.value.height.Some? && LocationComparable(p2.value.location)
    ensures ComparePersons(p1, p2) == CompareKeys(PersonKey(p1), PersonKey(p2))
  {
    if p1.Some? && p2.Some? {
      PresentPersonsMatchKeys(p1.value, p2.value);
    } else if p1.Some? || p2.Some? {
      var k1, k2 := PersonKey(p1), PersonKey(p2);
      assert k1 == [k1[0]] + k1[1..] && k2 == [k2[0]] + k2[1..];
      CompareKeysCons(k1[0], k2[0], k1[1..], k2[1..]);
    } else {
      var k := PersonKey(p1);
      CompareKeysZeroIffEqual(k, k);
    }
  }

  /** The comparator is exactly the lexicographic comparison of the sort keys. */
  lemma TicketsMatchKeys(t1: Ticket, t2: Ticket)
    requires Comparable(t1) && Comparable(t2)
    ensures CompareTickets(t1, t2) == CompareKeys(Key(t1), Key(t2))
  {
    var p1, p2 := PersonKey(t1.person), PersonKey(t2.person);
    var typed1, typed2 := [Ord(Ordinal(t1.ticketType.value))] + p1, [Ord(Ordinal(t2.ticketType.value))] + p2;
    var priced1, priced2 := [Num(t1.price)] + typed1, [Num(t2.price)] + typed2;
    var y1, y2 := [Whole(t1.coordinates.value.y.value)] + priced1, [Whole(t2.coordinates.value.y.value)] + priced2;
    var x1, x2 := [Num(t1.coordinates.value.x)] + y1, [Num(t2.coordinates.value.x)] + y2;
    assert Key(t1) == [Str(t1.name.value)] + x1;
    assert Key(t2) == [Str(t2.name.value)] + x2;
    CompareKeysCons(Str(t1.name.value), Str(t2.name.value), x1, x2);
    CompareKeysCons(Num(t1.coordinates.value.x), Num(t2.coordinates.value.x), y1, y2);
    CompareKeysCons(Whole(t1.coordinates.value.y.value), Whole(t2.coordinates.value.y.value), priced1, priced2);
    CompareKeysCons(Num(t1.price), Num(t2.price), typed1, typed2);
    CompareKeysCons(Ord(Ordinal(t1.ticketType.value)), Ord(Ordinal(t2.ticketType.value)), p1, p2);
    PersonsMatchKeys(t1.person, t2.person);
  }

  // -------- the ordering laws of the default comparator

  lemma CompareTicketsReflexive(t: Ticket)
    requires Comparable(t)
    ensures CompareTickets(t, t) == 0
  {
    TicketsMatchKeys(t, t);
    CompareKeysZeroIffEqual(Key(t), Key(t));
  }

  /** Swapping the arguments negates the result exactly. */
  lemma CompareTicketsAntisymmetric(t1: Ticket, t2: Ticket)
    requires Comparable(t1) && Comparable(t2)
    ensures CompareTickets(t1, t2) == -CompareTickets(t2, t1)
  {
    TicketsMatchKeys(t1, t2);
    TicketsMatchKeys(t2, t1);
    CompareKeysAntisymmetric(Key(t1), Key(t2));
  }

  lemma CompareTicketsTransitive(t1: Ticket, t2: Ticket, t3: Ticket)
    requires Comparable(t1) && Comparable(t2) && Comparable(t3)
    ensures CompareTickets(t1, t2) <= 0 && CompareTickets(t2, t3) <= 0 ==> CompareTickets(t1, t3) <= 0
    ensures CompareTickets(t1, t2) < 0 && CompareTickets(t2, t3) <= 0 ==> CompareTickets(t1, t3) < 0
    ensures CompareTickets(t1, t2) <= 0 && CompareTickets(t2, t3) < 0 ==> CompareTickets(t1, t3) < 0
  {
    TicketsMatchKeys(t1, t2);
    TicketsMatchKeys(t2, t3);
    TicketsMatchKeys(t1, t3);
    CompareKeysTransitive(Key(t1), Key(t2), Key(t3));
  }

  /** The fields the comparison reads: everything except id, creation date, handle and owner. */
  predicate SameComparedFields(t1: Ticket, t2: Ticket)
  {
    t1.name == t2.name && t1.coordinates == t2.coordinates && t1.price == t2.price
    && t1.ticketType == t2.ticketType && t1.person == t2.person
  }

  lemma KeysEqualIffSameFields(t1: Ticket, t2: Ticket)
    requires Comparable(t1) && Comparable(t2)
    ensures Key(t1) == Key(t2) <==> SameComparedFields(t1, t2)
  {
    if Key(t1) == Key(t2) {
      var k1, k2 := Key(t1), Key(t2);
      assert k1[0] == k2[0] && k1[1] == k2[1] && k1[2] == k2[2] && k1[3] == k2[3] && k1[4] == k2[4];
      assert t1.coordinates.value == t2.coordinates.value;
      assert Ordinal(t1.ticketType.value) == Ordinal(t2.ticketType.value);
      assert k1[5] == k2[5];
      if t1.person.Some? {
        var a, b := t1.person.value, t2.person.value;
        assert k1[6] == k2[6] && k1[7] == k2[7] && k1[8] == k2[8] && k1[9] == k2[9];
        assert k1[10] == k2[10] && k1[11] == k2[11] && k1[12] == k2[12] && k1[13] == k2[13];
        assert a.passportID == b.passportID;
        if a.location.Some? {
          assert a.location.value == b.location.value;
        }
        assert a == b;
      }
    }
  }

  /** The id, the creation date, the handle and the owner never influence the result. */
  lemma CompareIgnoresIdAndDate(t1: Ticket, t2: Ticket, id: int32, date: Option<Date>, h: nat, o: Option<string>)
    requires Comparable(t1) && Comparable(t2)
    ensures CompareTickets(t1.(id := id, creationDate := date, handle := h, owner := o), t2) == CompareTickets(t1, t2)
  {
  }

  /** A ticket without a person is strictly below a ticket with one when all earlier fields tie. */
  lemma NoPersonSortsFirst(t1: Ticket, t2: Ticket)
    requires Comparable(t1) && Comparable(t2)
    requires t1.name == t2.name && t1.coordinates == t2.coordinates && t1.price == t2.price && t1.ticketType == t2.ticketType
    requires t1.person.None? && t2.person.Some?
    ensures CompareTickets(t1, t2) < 0
  {
  }

  /** The name decides whenever the names differ, whatever the other fields are. */
  lemma NameDecidesFirst(t1: Ticket, t2: Ticket)
    requires Comparable(t1) && Comparable(t2) && t1.name != t2.name
    ensures CompareTickets(t1, t2) == StringCompare(t1.name.value, t2.name.value) != 0
  {
  }
}
