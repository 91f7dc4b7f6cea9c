/** The event categories, the subscription mask `expectsEvent`, and the two
    places that touch it: `subscribe`, which ORs into it, and `_handleEvent`,
    which filters against it.

    The mask is a 32-bit integer in the client. It is modelled by the set of
    positions of its one-bits: `|` is then union and "`&` is non-zero" is a
    non-empty intersection. */
module Events {

  /** A 32-bit mask, as the positions (0 to 31) of its one-bits. */
  type Mask = set<nat>

  /** The category names of the module-level `events` table, in order. */
  const Categories: seq<string> :=
    ["outlog", "errlog", "procstop", "procstart", "procadd", "procdel", "procren"]

  /** `events[name]` for the module-level table: the category's value, or 0
      where the table has no such category (undefined, which is falsy). */
  function TableValue(name: string): (v: nat)
    ensures v != 0 <==> name in Categories
  {
    if name == "outlog" then 0x01
    else if name == "errlog" then 0x02
    else if name == "procstop" then 0x04
    else if name == "procstart" then 0x08
    else if name == "procadd" then 0x10
    else if name == "procdel" then 0x20
    else if name == "procren" then 0x40
    else 0
  }

  /** `name` has an entry in the table. */
  predicate IsCategory(name: string)
  {
    TableValue(name) != 0
  }

  /** The one-bits of ToUint32(n), from bit `i` upwards, when `n` holds the
      bits of the original number above bit `i - 1`. */
  function BitsFrom(n: nat, i: nat): (bits: Mask)
    ensures forall k | k in bits :: i <= k < 32
    decreases 32 - i
  {
    if i >= 32 then {}
    else (if n % 2 == 1 then {i} else {}) + BitsFrom(n / 2, i + 1)
  }

  /** The one-bits of JavaScript's ToUint32(n) for a non-negative integer n;
      bits from 32 upwards are cut off. */
  function Bits(n: nat): Mask
  {
    BitsFrom(n, 0)
  }

  lemma {:induction false} NoBitsOfZero(i: nat)
    ensures BitsFrom(0, i) == {}
    decreases 32 - i
  {
    if i < 32 {
      NoBitsOfZero(i + 1);
    }
  }

  function Pow2(p: nat): (r: nat)
    ensures r >= 1
  {
    if p == 0 then 1 else 2 * Pow2(p - 1)
  }

  /** 2^(p - i), read from bit i upwards, has exactly the one-bit p. */
  lemma {:induction false} PowerHasOneBit(p: nat, i: nat)
    requires i <= p < 32
    ensures BitsFrom(Pow2(p - i), i) == {p}
    decreases p - i
  {
    NoBitsOfZero(i + 1);
    if i < p {
      var h := Pow2(p - (i + 1));
      assert Pow2(p - i) == 2 * h;
      assert (2 * h) % 2 == 0 && (2 * h) / 2 == h;
      PowerHasOneBit(p, i + 1);
    }
  }

  /** The bit position of each category. */
  function Position(name: string): nat
  {
    if name == "outlog" then 0
    else if name == "errlog" then 1
    else if name == "procstop" then 2
    else if name == "procstart" then 3
    else if name == "procadd" then 4
    else if name == "procdel" then 5
    else 6
  }

  /** Every category of the table is the single bit at its own position. */
  lemma TableValueIsSingleBit(name: string)
    requires IsCategory(name)
    ensures Position(name) < 32 && TableValue(name) == Pow2(Position(name))
    ensures Bits(TableValue(name)) == {Position(name)}
  {
    var p := Position(name);
    assert Pow2(0) == 1 && Pow2(1) == 2 && Pow2(2) == 4 && Pow2(3) == 8;
    assert Pow2(4) == 16 && Pow2(5) == 32 && Pow2(6) == 64;
    PowerHasOneBit(p, 0);
  }

  /** Two different categories are different bits, so they AND to zero. */
  lemma TableBitsAreDisjoint(a: string, b: string)
    requires IsCategory(a) && IsCategory(b) && a != b
    ensures Bits(TableValue(a)) * Bits(TableValue(b)) == {}
  {
    TableValueIsSingleBit(a);
    TableValueIsSingleBit(b);
  }

  /** Table values that are not categories contribute no bits. */
  lemma NonCategoryHasNoBits(name: string)
    requires !IsCategory(name)
    ensures Bits(TableValue(name)) == {}
  {
    NoBitsOfZero(0);
  }

  // ---------------------------------------------------------------------
  // Dispatch (`_handleEvent`)
  // ---------------------------------------------------------------------

  /** `_handleEvent` emits an event tagged `tag` under `mask` exactly when the
      tag names a category whose bit is in the mask. A tag that only finds an
      `Object.prototype` member in the table converts to 0 under `&`, so it is
      not emitted either. */
  predicate Delivers(tag: string, mask: Mask): (b: bool)
    ensures b ==> IsCategory(tag)
    ensures mask == {} ==> !b
  {
    IsCategory(tag) && Bits(TableValue(tag)) * mask != {}
  }

  /** A category is delivered exactly when its own position is in the mask. */
  lemma DeliversIffOwnBit(tag: string, mask: Mask)
    ensures Delivers(tag, mask) <==> IsCategory(tag) && Position(tag) in mask
  {
    if IsCategory(tag) {
      TableValueIsSingleBit(tag);
    }
  }

  /** `outlog` frames reach listeners only while bit 0 is set. */
  lemma OutlogNeedsItsBit(mask: Mask)
    ensures Delivers("outlog", mask) <==> 0 in mask
  {
    DeliversIffOwnBit("outlog", mask);
  }

  // ---------------------------------------------------------------------
  // `subscribe` as written: the parameter `events` shadows the table, so
  // `events[event]` looks a name up as a property of the argument array.
  // ---------------------------------------------------------------------

  predicate IsDigit(c: char)
  {
    '0' <= c <= '9'
  }

  predicate AllDigits(s: string)
  {
    forall i | 0 <= i < |s| :: IsDigit(s[i])
  }

  /** The number a string of decimal digits denotes. */
  function DigitsValue(s: string): nat
    requires AllDigits(s)
  {
    if s == [] then 0
    else DigitsValue(s[..|s| - 1]) * 10 + (s[|s| - 1] as int - '0' as int)
  }

  /** A property key that denotes an array index: decimal digits with no
      leading zero, like "0" or "12". */
  predicate IsIndexKey(key: string)
  {
    |key| > 0 && AllDigits(key) && (key[0] != '0' || |key| == 1)
  }

  /** The one-bits of ToInt32 of a string element: a string of decimal
      digits converts to its value; every other string is taken to convert
      to NaN, hence 0. */
  function StringBits(s: string): Mask
  {
    if AllDigits(s) then Bits(DigitsValue(s)) else {}
  }

  /** What `this.expectsEvent |= events[key]` ORs in when `events` is the
      argument array `names`: its length for "length", the element for an
      index key inside the array, and nothing for every other key (an
      undefined property is skipped by the `if`; an `Array.prototype` member
      converts to NaN, hence 0). */
  function Contribution(names: seq<string>, key: string): (r: Mask)
    ensures forall k | k in r :: k < 32
    ensures key != "length" && !IsIndexKey(key) ==> r == {}
    ensures IsCategory(key) ==> r == {}
  {
    if key == "length" then Bits(|names|)
    else if IsIndexKey(key) && DigitsValue(key) < |names| then StringBits(names[DigitsValue(key)])
    else {}
  }

  /** The mask after the `for` loop of `subscribe(names)` has handled its
      first `i` names, starting from `mask`. */
  function MaskAfter(names: seq<string>, i: nat, mask: Mask): (r: Mask)
    requires i <= |names|
    ensures mask <= r
    ensures forall j, k | 0 <= j < i && k in Contribution(names, names[j]) :: k in r
    ensures forall k | k in r && k !in mask :: exists j | 0 <= j < i :: k in Contribution(names, names[j])
  {
    if i == 0 then mask else MaskAfter(names, i - 1, mask) + Contribution(names, names[i - 1])
  }

  /** A 32-bit mask: every one-bit is below 32. */
  predicate Is32Bit(mask: Mask)
  {
    forall k | k in mask :: k < 32
  }

  /** `subscribe` keeps the mask a 32-bit value. */
  lemma {:induction false} SubscribeStays32Bit(names: seq<string>, i: nat, mask: Mask)
    requires i <= |names|
    requires Is32Bit(mask)
    ensures Is32Bit(MaskAfter(names, i, mask))
  {
    if i > 0 {
      SubscribeStays32Bit(names, i - 1, mask);
    }
  }

  /** Names that are neither "length" nor an index key leave the mask as it was. */
  lemma {:induction false} InertNamesKeepMask(names: seq<string>, i: nat, mask: Mask)
    requires i <= |names|
    requires forall k | 0 <= k < i :: names[k] != "length" && !IsIndexKey(names[k])
    ensures MaskAfter(names, i, mask) == mask
  {
    if i > 0 {
      InertNamesKeepMask(names, i - 1, mask);
    }
  }

  /** No category name is "length" or an index key. */
  lemma CategoryNamesAreInert(name: string)
    requires IsCategory(name)
    ensures name != "length" && !IsIndexKey(name)
  {
    assert !IsDigit(name[0]);
  }

  /** So, as written, subscribing to any list of categories leaves the mask
      unchanged, and a fresh client never delivers an event. */
  lemma SubscribeToCategoriesIsNoOp(names: seq<string>, mask: Mask)
    requires forall k | 0 <= k < |names| :: IsCategory(names[k])
    ensures MaskAfter(names, |names|, mask) == mask
    ensures forall tag :: !Delivers(tag, MaskAfter(names, |names|, {}))
  {
    forall k | 0 <= k < |names| ensures names[k] != "length" && !IsIndexKey(names[k]) {
      CategoryNamesAreInert(names[k]);
    }
    InertNamesKeepMask(names, |names|, mask);
    InertNamesKeepMask(names, |names|, {});
  }

  /** A name that does reach the mask as written: `["length"]` ORs in the
      array's length 1, the `outlog` bit. */
  lemma SubscribeLengthQuirk()
    ensures MaskAfter(["length"], 1, {}) == {0}
    ensures Delivers("outlog", MaskAfter(["length"], 1, {}))
  {
    PowerHasOneBit(0, 0);
    assert Contribution(["length"], "length") == Bits(1);
    OutlogNeedsItsBit({0});
  }

  /** Index keys reach the mask as written: `["1", "3"]` ORs in element 1,
      the string "3", which is the `outlog` and `errlog` bits, while "3" is
      past the end of the array and adds nothing. */
  lemma SubscribeIndexQuirk()
    ensures MaskAfter(["1", "3"], 2, {}) == {0, 1}
  {
    var ns := ["1", "3"];
    assert "1"[..0] == [] && "3"[..0] == [];
    assert IsIndexKey("1") && DigitsValue("1") == 1 && DigitsValue("3") == 3;
    NoBitsOfZero(2);
    assert BitsFrom(1, 1) == {1} + BitsFrom(0, 2);
    assert BitsFrom(3, 0) == {0} + BitsFrom(1, 1);
    assert Contribution(ns, "1") == StringBits("3") == {0, 1};
    assert Contribution(ns, "3") == {};
  }

  // ---------------------------------------------------------------------
  // `subscribe` as evidently intended: OR the table bits of the names.
  // ---------------------------------------------------------------------

  /** The OR of the table bits of the categories named in `names`; unknown
      names add nothing. */
  function RequestedBits(names: seq<string>): Mask
  {
    if names == [] then {}
    else RequestedBits(names[..|names| - 1]) + Bits(TableValue(names[|names| - 1]))
  }

  /** The mask after an intended `subscribe(names)` from `mask`. */
  function IntendedMask(names: seq<string>, mask: Mask): Mask
  {
    mask + RequestedBits(names)
  }

  /** The bits requested by two lists together are those of each. */
  lemma {:induction false} RequestedBitsAppend(a: seq<string>, b: seq<string>)
    ensures RequestedBits(a + b) == RequestedBits(a) + RequestedBits(b)
  {
    if b == [] {
      assert a + b == a;
    } else {
      var b' := b[..|b| - 1];
      assert (a + b)[..|a + b| - 1] == a + b';
      RequestedBitsAppend(a, b');
    }
  }

  /** Positions identify categories. */
  lemma PositionIsInjective(a: string, b: string)
    requires IsCategory(a) && IsCategory(b) && Position(a) == Position(b)
    ensures a == b
  {
  }

  /** A category's own bit delivers that category and no other. */
  lemma DeliversOwnBitOnly(tag: string, name: string)
    ensures Delivers(tag, Bits(TableValue(name))) <==> IsCategory(tag) && tag == name
  {
    DeliversIffOwnBit(tag, Bits(TableValue(name)));
    if IsCategory(name) {
      TableValueIsSingleBit(name);
      if IsCategory(tag) && Position(tag) == Position(name) {
        PositionIsInjective(tag, name);
      }
    } else {
      NonCategoryHasNoBits(name);
    }
  }

  /** Under the requested bits exactly the requested categories are delivered. */
  lemma {:induction false} DeliversRequested(names: seq<string>, tag: string)
    ensures Delivers(tag, RequestedBits(names)) <==> IsCategory(tag) && tag in names
  {
    if names == [] {
      DeliversIffOwnBit(tag, {});
    } else {
      var init := names[..|names| - 1];
      var last := names[|names| - 1];
      assert names == init + [last];
      DeliversRequested(init, tag);
      DeliversOwnBitOnly(tag, last);
      DeliversIffOwnBit(tag, RequestedBits(init));
      DeliversIffOwnBit(tag, Bits(TableValue(last)));
      DeliversIffOwnBit(tag, RequestedBits(names));
    }
  }

  /** Subscribing to A and then to B yields the mask A | B, no previously set
      bit is cleared, and exactly the requested categories are delivered. */
  lemma IntendedSubscribeAccumulates(a: seq<string>, b: seq<string>, mask: Mask, tag: string)
    ensures IntendedMask(b, IntendedMask(a, mask)) == IntendedMask(a + b, mask)
    ensures mask <= IntendedMask(a, mask)
    ensures Delivers(tag, IntendedMask(a + b, {})) <==> IsCategory(tag) && (tag in a || tag in b)
  {
    RequestedBitsAppend(a, b);
    assert IntendedMask(a + b, {}) == RequestedBits(a + b);
    DeliversRequested(a + b, tag);
  }

  /** The discrepancy: the intended `subscribe(["outlog"])` sets the `outlog`
      bit, the written one leaves the mask empty. */
  lemma SubscribeShadowingDiffers()
    ensures IntendedMask(["outlog"], {}) == {0}
    ensures MaskAfter(["outlog"], 1, {}) == {}
  {
    assert ["outlog"][..0] == [];
    TableValueIsSingleBit("outlog");
    SubscribeToCategoriesIsNoOp(["outlog"], {});
  }
}
