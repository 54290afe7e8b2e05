/**
 * The data model of a ticket record: Ticket, Coordinates, Person, Location,
 * TicketType and the creation date. Java reference fields that may be null are
 * `Option`s; primitive fields are plain values. Float fields are `real`.
 */
module Data {
  import opened Wrappers

  /** Java's 32-bit `int`. */
  newtype int32 = x: int | -0x8000_0000 <= x < 0x8000_0000

  const MinInt32: int := -0x8000_0000
  const MaxInt32: int := 0x7fff_ffff

  /** Two's-complement wrap-around of a mathematical integer into the `int` range. */
  function Wrap32(x: int): (r: int32)
    ensures -0x8000_0000 <= x <= 0x7fff_ffff ==> r as int == x
    ensures (r as int - x) % 0x1_0000_0000 == 0
  {
    ((x + 0x8000_0000) % 0x1_0000_0000 - 0x8000_0000) as int32
  }

  // ---------------------------------------------------------------- Java strings

  /**
   * One character as the UTF-16 code units a Java String stores for it: itself
   * below U+10000, otherwise a high surrogate followed by a low surrogate.
   */
  function CodeUnits(c: char): (u: seq<int>)
    ensures 1 <= |u| <= 2
    ensures |u| == 1 <==> c as int < 0x10000
    ensures 0xD800 <= u[0] < 0xDC00 <==> |u| == 2
    ensures forall k :: 0 <= k < |u| ==> 0 <= u[k] < 0x10000
  {
    if c as int < 0x10000 then [c as int]
    else
      var v := c as int - 0x10000;
      [0xD800 + v / 0x400, 0xDC00 + v % 0x400]
  }

  /** The UTF-16 code units of a string: what String.length() counts and String.compareTo compares. */
  function Utf16(s: string): (u: seq<int>)
    ensures |u| >= |s|
    ensures |u| == |s| <==> forall k :: 0 <= k < |s| ==> s[k] as int < 0x10000
  {
    if s == [] then []
    else
      var rest := Utf16(s[1..]);
      assert forall k :: 1 <= k < |s| ==> s[k] == s[1..][k - 1];
      CodeUnits(s[0]) + rest
  }

  /** String.length(): the number of UTF-16 code units, not of characters. */
  function JavaLength(s: string): (n: nat)
    ensures n >= |s|
    ensures n == |s| <==> forall k :: 0 <= k < |s| ==> s[k] as int < 0x10000
  {
    |Utf16(s)|
  }

  /** Characters above U+FFFF count twice in String.length(). */
  lemma {:induction false} SupplementaryCountsTwice(s: string)
    requires forall k :: 0 <= k < |s| ==> s[k] as int >= 0x10000
    ensures JavaLength(s) == 2 * |s|
  {
    if s != [] {
      SupplementaryCountsTwice(s[1..]);
    }
  }

  lemma CodeUnitsInjective(c: char, d: char)
    ensures CodeUnits(c) == CodeUnits(d) <==> c == d
  {
    if CodeUnits(c) == CodeUnits(d) && c as int >= 0x10000 {
      var v, w := c as int - 0x10000, d as int - 0x10000;
      assert v / 0x400 == w / 0x400 && v % 0x400 == w % 0x400;
      assert v == 0x400 * (v / 0x400) + v % 0x400;
      assert w == 0x400 * (w / 0x400) + w % 0x400;
    }
  }

  /** Different strings have different code units, so UTF-16 loses nothing. */
  lemma {:induction false} Utf16Injective(a: string, b: string)
    ensures Utf16(a) == Utf16(b) <==> a == b
  {
    if Utf16(a) == Utf16(b) && a != [] && b != [] {
      var ua, ub := CodeUnits(a[0]), CodeUnits(b[0]);
      var u := Utf16(a);
      assert u == ua + Utf16(a[1..]) && u == ub + Utf16(b[1..]);
      assert ua[0] == u[0] == ub[0];
      assert |ua| == |ub|;
      assert ua == u[..|ua|] == ub;
      assert Utf16(a[1..]) == u[|ua|..] == Utf16(b[1..]);
      CodeUnitsInjective(a[0], b[0]);
      Utf16Injective(a[1..], b[1..]);
      assert a == [a[0]] + a[1..] && b == [b[0]] + b[1..];
    }
  }

  /** Ticket types in declaration order; the enum's natural order is this order. */
  datatype TicketType = VIP | USUAL | BUDGETARY | CHEAP

  /** The enum constant's ordinal. */
  function Ordinal(t: TicketType): (n: nat)
    ensures n < 4
  {
    match t
    case VIP => 0
    case USUAL => 1
    case BUDGETARY => 2
    case CHEAP => 3
  }

  /** Different constants have different ordinals, so comparing ordinals is a total order on the enum. */
  lemma OrdinalIsInjective(a: TicketType, b: TicketType)
    ensures Ordinal(a) == Ordinal(b) <==> a == b
  {
  }

  /** The enum constant's name(). */
  function TypeName(t: TicketType): (s: string)
    ensures s != [] && forall k :: 0 <= k < |s| ==> 'A' <= s[k] <= 'Z'
  {
    match t
    case VIP => "VIP"
    case USUAL => "USUAL"
    case BUDGETARY => "BUDGETARY"
    case CHEAP => "CHEAP"
  }

  /** `x` is a primitive float, `y` a nullable Long. */
  datatype Coordinates = Coordinates(x: real, y: Option<int>)

  /** All three fields are nullable boxed numbers (Long, Long, Integer). */
  datatype Location = Location(x: Option<int>, y: Option<int>, z: Option<int>)

  /** `height` is a nullable Float, `weight` a primitive int. */
  datatype Person = Person(height: Option<real>, weight: int, passportID: Option<string>, location: Option<Location>)

  /** A calendar date (java.time.LocalDate); month and day are kept as given. */
  datatype Date = Date(year: int, month: int, day: int)

  /**
   * A ticket. `handle` stands for the Java object's identity: Ticket does not
   * override equals, so two tickets are "the same" exactly when they are the same
   * object. `owner` is the username stamped on it by the add command.
   */
  datatype Ticket = Ticket(
    handle: nat,
    id: int32,
    name: Option<string>,
    coordinates: Option<Coordinates>,
    creationDate: Option<Date>,
    price: real,
    ticketType: Option<TicketType>,
    person: Option<Person>,
    owner: Option<string>)

  /** A user's login and password as carried in requests. */
  datatype AuthCredentials = AuthCredentials(username: string, password: string)
}
