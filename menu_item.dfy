/**
 * The `MenuItem` data class: a record with a generated id, and the
 * `uuidv4` template substitution that generates it.
 */
module Items {
  import opened Js

  /** The value of `(Math.random() * 16) | 0`: an integer in 0..15. */
  type Hex = d: int | 0 <= d < 16

  /** `n` copies of the template character `x`. */
  function Xs(n: nat): (r: string)
    ensures |r| == n && forall k :: 0 <= k < n ==> r[k] == 'x'
  {
    seq(n, k => 'x')
  }

  /**
   * The id template `uuidv4` substitutes into, `"xxxxxxxx-xxxx-xxxx-xxx-xxxxxxxxxxxx"`,
   * written as its hyphen-separated groups of `x`.
   */
  const Template: string := Xs(8) + "-" + Xs(4) + "-" + Xs(4) + "-" + Xs(3) + "-" + Xs(12)

  /** How many characters of the template are replaced, hence random draws per id. */
  const IdDigits: nat := 31

  /** Number of characters matched by the regular expression `/[x]/g`. */
  function CountX(t: string): nat
  {
    if t == [] then 0 else (if t[0] == 'x' then 1 else 0) + CountX(t[1..])
  }

  /** `v.toString(16)` for a value below 16: one lower-case hex digit. */
  function HexChar(d: Hex): char
  {
    if d < 10 then ('0' as int + d) as char else ('a' as int + d - 10) as char
  }

  predicate IsHexChar(c: char)
  {
    '0' <= c <= '9' || 'a' <= c <= 'f'
  }

  /** Reads one lower-case hex digit back. */
  function HexValue(c: char): Hex
    requires IsHexChar(c)
  {
    if c <= '9' then c as int - '0' as int else c as int - 'a' as int + 10
  }

  lemma HexCharRoundTrip(d: Hex)
    ensures IsHexChar(HexChar(d)) && HexValue(HexChar(d)) == d
  {
  }

  /** The replacer callback: `c == "x" ? r : (r & 0x3) | 0x8`. */
  function Replacement(c: char, r: Hex): (v: Hex)
    ensures c == 'x' ==> v == r
    ensures c != 'x' ==> 8 <= v < 12 && v % 4 == r % 4
  {
    if c == 'x' then r else r % 4 + 8
  }

  /**
   * `t.replace(/[x]/g, callback)`, where the callback's successive random
   * values are `digits`.
   */
  function Substitute(t: string, digits: seq<Hex>): (r: string)
    requires |digits| == CountX(t)
    ensures |r| == |t|
    ensures forall k :: 0 <= k < |t| && t[k] != 'x' ==> r[k] == t[k]
    ensures forall k :: 0 <= k < |t| && t[k] == 'x' ==> IsHexChar(r[k])
  {
    if t == [] then []
    else if t[0] == 'x' then [HexChar(Replacement(t[0], digits[0]))] + Substitute(t[1..], digits[1..])
    else [t[0]] + Substitute(t[1..], digits)
  }

  /** The hex digits found in `s` at the positions where `t` has an `x`. */
  function DigitsAt(t: string, s: string): seq<int>
    requires |s| == |t|
  {
    if t == [] then []
    else if t[0] == 'x' && IsHexChar(s[0]) then [HexValue(s[0]) as int] + DigitsAt(t[1..], s[1..])
    else if t[0] == 'x' then [-1] + DigitsAt(t[1..], s[1..])
    else DigitsAt(t[1..], s[1..])
  }

  /** Reading the substituted positions back yields exactly the random values used. */
  lemma {:induction false} SubstituteRoundTrip(t: string, digits: seq<Hex>)
    requires |digits| == CountX(t)
    ensures DigitsAt(t, Substitute(t, digits)) == digits
  {
    if t != [] {
      var r := Substitute(t, digits);
      if t[0] == 'x' {
        HexCharRoundTrip(digits[0]);
        SubstituteRoundTrip(t[1..], digits[1..]);
        assert r[1..] == Substitute(t[1..], digits[1..]);
      } else {
        SubstituteRoundTrip(t[1..], digits);
        assert r[1..] == Substitute(t[1..], digits);
      }
    }
  }

  lemma {:induction false} CountXAppend(a: string, b: string)
    ensures CountX(a + b) == CountX(a) + CountX(b)
  {
    if a == [] {
      assert a + b == b;
    } else {
      assert (a + b)[1..] == a[1..] + b;
      CountXAppend(a[1..], b);
    }
  }

  lemma {:induction false} CountXs(n: nat)
    ensures CountX(Xs(n)) == n
  {
    if n > 0 {
      assert Xs(n)[1..] == Xs(n - 1);
      CountXs(n - 1);
    }
  }

  /** Appending a hyphen and then a group of `n` characters `x` adds `n` to the count. */
  lemma CountXGroup(t: string, n: nat)
    ensures CountX(t + "-" + Xs(n)) == CountX(t) + n
  {
    CountXAppend(t, "-");
    CountXAppend(t + "-", Xs(n));
    CountXs(n);
  }

  /** The template has 31 `x` characters, one per random draw. */
  lemma TemplateCount()
    ensures CountX(Template) == IdDigits
  {
    CountXs(8);
    CountXGroup(Xs(8), 4);
    CountXGroup(Xs(8) + "-" + Xs(4), 4);
    CountXGroup(Xs(8) + "-" + Xs(4) + "-" + Xs(4), 3);
    CountXGroup(Xs(8) + "-" + Xs(4) + "-" + Xs(4) + "-" + Xs(3), 12);
  }

  /** The template is 35 characters long, with hyphens at 8, 13, 18 and 22 and `x` elsewhere. */
  lemma TemplateLayout()
    ensures |Template| == 35
    ensures Template[8] == Template[13] == Template[18] == Template[22] == '-'
    ensures forall k :: 0 <= k < |Template| && k !in {8, 13, 18, 22} ==> Template[k] == 'x'
  {
  }

  lemma TemplateShape()
    ensures CountX(Template) == IdDigits && |Template| == 35
    ensures Template[8] == Template[13] == Template[18] == Template[22] == '-'
    ensures forall k :: 0 <= k < |Template| && k !in {8, 13, 18, 22} ==> Template[k] == 'x'
  {
    TemplateCount();
    TemplateLayout();
  }

  /** `MenuItem.uuidv4()` with the random values supplied. */
  function Uuidv4(digits: seq<Hex>): (id: string)
    requires |digits| == IdDigits
    ensures |id| == |Template|
    ensures forall k :: 0 <= k < |Template| && Template[k] != 'x' ==> id[k] == Template[k]
    ensures forall k :: 0 <= k < |Template| && Template[k] == 'x' ==> IsHexChar(id[k])
  {
    TemplateShape();
    Substitute(Template, digits)
  }

  /**
   * The shape of a generated id: as long as the template, hyphens where the
   * template has them, and every other position one hex digit, namely the
   * random value drawn for it (so two ids coincide exactly when their draws do).
   */
  lemma Uuidv4Shape(digits: seq<Hex>)
    requires |digits| == IdDigits
    ensures |Uuidv4(digits)| == |Template| == 35
    ensures forall k :: k in {8, 13, 18, 22} ==> Uuidv4(digits)[k] == '-'
    ensures forall k :: 0 <= k < 35 && k !in {8, 13, 18, 22} ==> IsHexChar(Uuidv4(digits)[k])
    ensures DigitsAt(Template, Uuidv4(digits)) == digits
  {
    TemplateShape();
    SubstituteRoundTrip(Template, digits);
  }

  /** Different random values give different ids. */
  lemma Uuidv4Injective(d1: seq<Hex>, d2: seq<Hex>)
    requires |d1| == |d2| == IdDigits
    ensures Uuidv4(d1) == Uuidv4(d2) ==> d1 == d2
  {
    Uuidv4Shape(d1);
    Uuidv4Shape(d2);
  }

  /** The `n` random values drawn starting at call number `start`. */
  function Draws(draw: nat -> Hex, start: nat, n: nat): (ds: seq<Hex>)
    ensures |ds| == n
  {
    seq(n, i requires 0 <= i < n => draw(start + i))
  }

  /** The id `uuidv4` generates when `Math.random` has already been called `calls` times. */
  function IdAt(draw: nat -> Hex, calls: nat): string
  {
    Uuidv4(Draws(draw, calls, IdDigits))
  }

  /** Every generated id is 35 characters long, so never empty. */
  lemma IdAtLength(draw: nat -> Hex, calls: nat)
    ensures |IdAt(draw, calls)| == 35
  {
    TemplateLayout();
  }

  /**
   * `Math.random`, as the sequence of values `(Math.random() * 16) | 0` takes
   * and a count of how many have been consumed.
   */
  class Rng {
    const draw: nat -> Hex
    var calls: nat

    constructor (draw: nat -> Hex)
      ensures this.draw == draw && calls == 0
    {
      this.draw := draw;
      calls := 0;
    }

    /** `MenuItem.uuidv4()`: one random value per `x` of the template. */
    method NextId() returns (id: string)
      modifies this
      ensures id == IdAt(draw, old(calls))
      ensures calls == old(calls) + IdDigits
    {
      id := IdAt(draw, calls);
      calls := calls + IdDigits;
    }
  }

  /** A record as built by the `MenuItem` constructor. */
  datatype MenuItem = MenuItem(
    id: string,
    name: Value,
    address: Value,
    telephone: Value,
    email: Value,
    contacts: Value)

  /** The contacts default `contacts = []`, taken when the property reads as `undefined`. */
  function ContactsOrDefault(v: Value): (r: Value)
    ensures v == Undefined ==> r == List([])
    ensures v != Undefined ==> r == v
  {
    if v == Undefined then List([]) else v
  }

  /**
   * `new MenuItem(data)` where `uuidv4` returned `id`: the five fields are read
   * from the data, any `_id` (or other property) in it is ignored.
   */
  function Build(props: map<string, Value>, id: string): (item: MenuItem)
    ensures item.id == id && item.contacts != Undefined
  {
    MenuItem(id, Get(props, "name"), Get(props, "address"), Get(props, "telephone"),
             Get(props, "email"), ContactsOrDefault(Get(props, "contacts")))
  }

  /** The own properties of a record, as `{ ...item }` copies them. */
  function ToProps(item: MenuItem): map<string, Value>
  {
    map["_id" := Str(item.id), "name" := item.name, "address" := item.address,
        "telephone" := item.telephone, "email" := item.email, "contacts" := item.contacts]
  }

  /** A value the constructor can have produced: its contacts default has been applied. */
  predicate Constructed(item: MenuItem)
  {
    item.contacts != Undefined
  }

  /** `new MenuItem({ ...item, ...updates })` where `uuidv4` returned `id`. */
  function Merge(item: MenuItem, updates: Data, id: string): (r: MenuItem)
    requires Constructed(item)
    ensures r.id == id
    ensures r.name == if "name" in Props(updates) then Props(updates)["name"] else item.name
    ensures r.address == if "address" in Props(updates) then Props(updates)["address"] else item.address
    ensures r.telephone == if "telephone" in Props(updates) then Props(updates)["telephone"] else item.telephone
    ensures r.email == if "email" in Props(updates) then Props(updates)["email"] else item.email
    ensures r.contacts == if "contacts" in Props(updates) then ContactsOrDefault(Props(updates)["contacts"]) else item.contacts
  {
    Build(ToProps(item) + Props(updates), id)
  }

  /** Rebuilding a record from its own spread with its own id gives it back. */
  lemma RebuildIsIdentity(item: MenuItem)
    requires Constructed(item)
    ensures Build(ToProps(item), item.id) == item
  {
  }

  /** The constructor ignores any `_id` in its input: only the generated one counts. */
  lemma BuildIgnoresGivenId(props: map<string, Value>, given: Value, id: string)
    ensures Build(props["_id" := given], id) == Build(props, id)
  {
  }
}
