/** JSON documents and the byte lengths of their compact encodings (serde_json). */
module Json {
  import opened Wrappers

  type Byte = n: int | 0 <= n < 256

  // ---------- decimal numbers ----------

  function Digits(n: nat): (d: nat)
    ensures d >= 1
  {
    if n < 10 then 1 else 1 + Digits(n / 10)
  }

  lemma {:induction false} DigitsMonotone(a: nat, b: nat)
    requires a <= b
    ensures Digits(a) <= Digits(b)
  {
    if b >= 10 && a >= 10 {
      DigitsMonotone(a / 10, b / 10);
    }
  }

  function Decimal(n: nat): (s: seq<Byte>)
    ensures |s| == Digits(n)
  {
    if n < 10 then [48 + n] else Decimal(n / 10) + [48 + n % 10]
  }

  /** The number a decimal text denotes. */
  ghost function Denoted(s: seq<Byte>): int {
    if s == [] then 0 else 10 * Denoted(s[..|s| - 1]) + (s[|s| - 1] as int - 48)
  }

  /** Digits only, no leading zero, and they denote the number. */
  lemma {:induction false} DecimalIs(n: nat)
    ensures Denoted(Decimal(n)) == n
    ensures forall i | 0 <= i < |Decimal(n)| :: 48 <= Decimal(n)[i] <= 57
    ensures n > 0 ==> Decimal(n)[0] != 48
  {
    if n < 10 {
      assert [48 + n][..0] == [];
    } else {
      DecimalIs(n / 10);
      var s := Decimal(n);
      assert s[..|s| - 1] == Decimal(n / 10);
    }
  }

  /** Text of a printed integer. */
  function IntText(n: int): (s: seq<Byte>)
    ensures |s| == IntLen(n)
  {
    if n < 0 then [45] + Decimal(-n) else Decimal(n)
  }

  lemma IntTextInjective(a: int, b: int)
    requires IntText(a) == IntText(b)
    ensures a == b
  {
    var x: nat, y: nat := if a < 0 then -a else a, if b < 0 then -b else b;
    DecimalIs(x);
    DecimalIs(y);
    if a < 0 {
      assert b < 0 && Decimal(x) == IntText(a)[1..] == IntText(b)[1..] == Decimal(y);
    } else {
      assert b >= 0;
    }
  }

  // ---------- strings ----------

  /** UTF-8 length of a character. */
  function Utf8Len(c: char): nat {
    var n := c as int;
    if n < 0x80 then 1 else if n < 0x800 then 2 else if n < 0x1_0000 then 3 else 4
  }

  function Utf8(c: char): (b: seq<Byte>)
    ensures |b| == Utf8Len(c)
  {
    var n := c as int;
    if n < 0x80 then [n]
    else if n < 0x800 then [0xC0 + n / 64, 0x80 + n % 64]
    else if n < 0x1_0000 then [0xE0 + n / 4096, 0x80 + n / 64 % 64, 0x80 + n % 64]
    else [0xF0 + n / 0x4_0000 % 8, 0x80 + n / 4096 % 64, 0x80 + n / 64 % 64, 0x80 + n % 64]
  }

  /** The two-character escapes. */
  function ShortEscape(c: char): Option<Byte> {
    var n := c as int;
    if n == 0x22 then Some(0x22)        // quotation mark
    else if n == 0x5C then Some(0x5C)   // reverse solidus
    else if n == 0x08 then Some(0x62)
    else if n == 0x0C then Some(0x66)
    else if n == 0x0A then Some(0x6E)
    else if n == 0x0D then Some(0x72)
    else if n == 0x09 then Some(0x74)
    else None
  }

  function Hex(n: int): Byte
    requires 0 <= n < 16
  {
    if n < 10 then 48 + n else 87 + n
  }

  /** Printable ASCII other than the quotation mark and the reverse solidus encodes as itself. */
  predicate PlainChar(c: char) {
    ' ' <= c <= '~' && c != '\"' && c != '\\'
  }

  function EncodeChar(c: char): (b: seq<Byte>)
    ensures |b| == CharLen(c)
  {
    if PlainChar(c) then [c as int]
    else if ShortEscape(c).Some? then [0x5C, ShortEscape(c).value]
    else if c as int < 0x20 then [0x5C, 0x75, 0x30, 0x30, Hex(c as int / 16), Hex(c as int % 16)]
    else Utf8(c)
  }

  function CharLen(c: char): nat {
    if PlainChar(c) then 1 else EscapedLen(c)
  }

  function EscapedLen(c: char): nat {
    if ShortEscape(c).Some? then 2 else if c as int < 0x20 then 6 else Utf8Len(c)
  }

  function EncodeChars(s: string): (b: seq<Byte>)
    ensures |b| == CharsLen(s)
  {
    if s == "" then [] else EncodeChar(s[0]) + EncodeChars(s[1..])
  }

  function CharsLen(s: string): nat {
    if s == "" then 0 else CharLen(s[0]) + CharsLen(s[1..])
  }

  function EncodeStr(s: string): (b: seq<Byte>)
    ensures |b| == StrLen(s)
  {
    [0x22] + EncodeChars(s) + [0x22]
  }

  /** Encoded length of a JSON string, quotes included. */
  function StrLen(s: string): nat {
    2 + CharsLen(s)
  }

  lemma {:induction false} CharsLenConcat(a: string, b: string)
    ensures CharsLen(a + b) == CharsLen(a) + CharsLen(b)
  {
    if a == "" {
      assert a + b == b;
    } else {
      assert (a + b)[1..] == a[1..] + b;
      CharsLenConcat(a[1..], b);
    }
  }

  // ---------- values ----------

  /** A parsed document. A number is its own text; an object is its members in key order,
      the order serde_json's map keeps them in. */
  datatype Value =
    | Null
    | Bool(b: bool)
    | Number(text: seq<Byte>)
    | Str(s: string)
    | Array(items: seq<Value>)
    | Object(members: seq<Member>)

  datatype Member = Member(key: string, value: Value)

  ghost predicate DistinctKeysIn(members: seq<Member>) {
    forall i, j | 0 <= i < j < |members| :: members[i].key != members[j].key
  }

  /** Every object maps each key once, as serde_json's map does. */
  ghost predicate UniqueKeys(v: Value) {
    match v
    case Array(items) => forall i | 0 <= i < |items| :: UniqueKeys(items[i])
    case Object(members) => DistinctKeysIn(members) && forall i | 0 <= i < |members| :: UniqueKeys(members[i].value)
    case _ => true
  }

  // ---------- compact encoding ----------

  function Compact(v: Value): (b: seq<Byte>)
    ensures |b| == Len(v)
    decreases v, 0
  {
    match v
    case Null => [0x6E, 0x75, 0x6C, 0x6C]
    case Bool(b) => if b then [0x74, 0x72, 0x75, 0x65] else [0x66, 0x61, 0x6C, 0x73, 0x65]
    case Number(text) => text
    case Str(s) => EncodeStr(s)
    case Array(items) => [0x5B] + CompactItems(items) + [0x5D]
    case Object(members) => [0x7B] + CompactMembers(members) + [0x7D]
  }

  function CompactItems(items: seq<Value>): (b: seq<Byte>)
    ensures |b| == if items == [] then 0 else ItemsLen(items) - 1
    decreases items, 1
  {
    if items == [] then []
    else if |items| == 1 then Compact(items[0])
    else Compact(items[0]) + [0x2C] + CompactItems(items[1..])
  }

  function CompactMember(m: Member): (b: seq<Byte>)
    ensures |b| == StrLen(m.key) + 1 + Len(m.value)
    decreases m, 0
  {
    EncodeStr(m.key) + [0x3A] + Compact(m.value)
  }

  function CompactMembers(members: seq<Member>): (b: seq<Byte>)
    ensures |b| == if members == [] then 0 else MembersLen(members) - 1
    decreases members, 1
  {
    if members == [] then []
    else if |members| == 1 then CompactMember(members[0])
    else CompactMember(members[0]) + [0x2C] + CompactMembers(members[1..])
  }

  /** Byte length of the compact encoding. */
  function Len(v: Value): nat
    decreases v, 0
  {
    match v
    case Null => 4
    case Bool(b) => if b then 4 else 5
    case Number(text) => |text|
    case Str(s) => StrLen(s)
    case Array(items) => if items == [] then 2 else 1 + ItemsLen(items)
    case Object(members) => if members == [] then 2 else 1 + MembersLen(members)
  }

  /** Items with a separator each. */
  function ItemsLen(items: seq<Value>): (n: nat)
    ensures n >= |items|
    decreases items, 1
  {
    if items == [] then 0 else Len(items[0]) + 1 + ItemsLen(items[1..])
  }

  /** Members with a separator each. */
  function MembersLen(members: seq<Member>): (n: nat)
    ensures n >= |members|
    decreases members, 1
  {
    if members == [] then 0 else MemberLen(members[0]) + MembersLen(members[1..])
  }

  function MemberLen(m: Member): (n: nat)
    ensures n >= 1
    decreases m, 0
  {
    StrLen(m.key) + Len(m.value) + 2
  }

  // ---------- structs ----------

  ghost predicate Without(members: seq<Member>, key: string) {
    forall i | 0 <= i < |members| :: members[i].key != key
  }

  /** One field of a struct before the others; one that serialization skips is None. */
  function Field(key: string, value: Option<Value>, rest: seq<Member>): (members: seq<Member>)
    ensures MembersLen(members)
            == MembersLen(rest) + if value.Some? then StrLen(key) + Len(value.value) + 2 else 0
  {
    if value.Some? then [Member(key, value.value)] + rest else rest
  }

  lemma FieldWithout(key: string, value: Option<Value>, rest: seq<Member>, other: string)
    requires Without(rest, other) && key != other
    ensures Without(Field(key, value, rest), other)
  {
  }

  lemma FieldInjective(key: string, a: Option<Value>, restA: seq<Member>, b: Option<Value>, restB: seq<Member>)
    requires Field(key, a, restA) == Field(key, b, restB) && Without(restA, key) && Without(restB, key)
    ensures a == b && restA == restB
  {
    var members := Field(key, a, restA);
    if a.Some? || b.Some? {
      assert members != [] && members[0].key == key;
      assert a.Some? ==> members[1..] == restA && members[0] == Member(key, a.value);
      assert b.Some? ==> members[1..] == restB && members[0] == Member(key, b.value);
    }
  }

  /** Two fields at a time. */
  lemma TwoInjective(k0: string, k1: string, a0: Option<Value>, a1: Option<Value>, a: seq<Member>, b0: Option<Value>,
                     b1: Option<Value>, b: seq<Member>)
    requires Field(k0, a0, Field(k1, a1, a)) == Field(k0, b0, Field(k1, b1, b)) && k0 != k1
    requires Without(a, k0) && Without(b, k0) && Without(a, k1) && Without(b, k1)
    ensures a0 == b0 && a1 == b1 && a == b
  {
    hide Field, Without;
    FieldWithout(k1, a1, a, k0);
    FieldWithout(k1, b1, b, k0);
    FieldInjective(k0, a0, Field(k1, a1, a), b0, Field(k1, b1, b));
    FieldInjective(k1, a1, a, b1, b);
  }

  lemma FourWithout(k: string, k0: string, k1: string, k2: string, k3: string,
                    a0: Option<Value>, a1: Option<Value>, a2: Option<Value>, a3: Option<Value>, a: seq<Member>)
    requires k != k0 && k != k1 && k != k2 && k != k3 && Without(a, k)
    ensures Without(Field(k0, a0, Field(k1, a1, Field(k2, a2, Field(k3, a3, a)))), k)
  {
    hide Field, Without;
    FieldWithout(k3, a3, a, k);
    FieldWithout(k2, a2, Field(k3, a3, a), k);
    FieldWithout(k1, a1, Field(k2, a2, Field(k3, a3, a)), k);
    FieldWithout(k0, a0, Field(k1, a1, Field(k2, a2, Field(k3, a3, a))), k);
  }

  lemma ThreeInjective(k0: string, k1: string, k2: string,
                       a0: Option<Value>, a1: Option<Value>, a2: Option<Value>, a: seq<Member>,
                       b0: Option<Value>, b1: Option<Value>, b2: Option<Value>, b: seq<Member>)
    requires Field(k0, a0, Field(k1, a1, Field(k2, a2, a))) == Field(k0, b0, Field(k1, b1, Field(k2, b2, b)))
    requires k0 != k1 && k0 != k2 && k1 != k2
    requires Without(a, k0) && Without(a, k1) && Without(a, k2)
    requires Without(b, k0) && Without(b, k1) && Without(b, k2)
    ensures a0 == b0 && a1 == b1 && a2 == b2 && a == b
  {
    hide Field, Without;
    forall k <- {k0, k1} ensures Without(Field(k2, a2, a), k) && Without(Field(k2, b2, b), k) {
      FieldWithout(k2, a2, a, k);
      FieldWithout(k2, b2, b, k);
    }
    TwoInjective(k0, k1, a0, a1, Field(k2, a2, a), b0, b1, Field(k2, b2, b));
    FieldInjective(k2, a2, a, b2, b);
  }

  /** Four fields at a time. */
  lemma FourInjective(k0: string, k1: string, k2: string, k3: string,
                      a0: Option<Value>, a1: Option<Value>, a2: Option<Value>, a3: Option<Value>, a: seq<Member>,
                      b0: Option<Value>, b1: Option<Value>, b2: Option<Value>, b3: Option<Value>, b: seq<Member>)
    requires Field(k0, a0, Field(k1, a1, Field(k2, a2, Field(k3, a3, a))))
             == Field(k0, b0, Field(k1, b1, Field(k2, b2, Field(k3, b3, b))))
    requires k0 != k1 && k0 != k2 && k0 != k3 && k1 != k2 && k1 != k3 && k2 != k3
    requires Without(a, k0) && Without(a, k1) && Without(a, k2) && Without(a, k3)
    requires Without(b, k0) && Without(b, k1) && Without(b, k2) && Without(b, k3)
    ensures a0 == b0 && a1 == b1 && a2 == b2 && a3 == b3 && a == b
  {
    hide Field, Without;
    forall k <- {k0, k1}
      ensures Without(Field(k2, a2, Field(k3, a3, a)), k) && Without(Field(k2, b2, Field(k3, b3, b)), k)
    {
      FieldWithout(k3, a3, a, k);
      FieldWithout(k3, b3, b, k);
      FieldWithout(k2, a2, Field(k3, a3, a), k);
      FieldWithout(k2, b2, Field(k3, b3, b), k);
    }
    TwoInjective(k0, k1, a0, a1, Field(k2, a2, Field(k3, a3, a)), b0, b1, Field(k2, b2, Field(k3, b3, b)));
    TwoInjective(k2, k3, a2, a3, a, b2, b3, b);
  }

  lemma NothingWithout()
    ensures forall k: string :: Without([], k)
  {
  }

  function Values<T>(items: seq<T>, f: T -> Value): (vs: seq<Value>)
    ensures |vs| == |items| && forall i | 0 <= i < |items| :: vs[i] == f(items[i])
  {
    seq(|items|, i requires 0 <= i < |items| => f(items[i]))
  }

  lemma {:induction false} ValuesLen<T>(items: seq<T>, f: T -> Value, len: T -> nat)
    requires forall i | 0 <= i < |items| :: Len(f(items[i])) == len(items[i])
    ensures ItemsLen(Values(items, f)) == ElementsLen(items, len)
    ensures Len(Array(Values(items, f))) == ArrayLen(items, len)
  {
    if items != [] {
      ValuesLen(items[1..], f, len);
      assert Values(items, f)[1..] == Values(items[1..], f);
    }
  }

  // ---------- lengths of plain texts ----------

  ghost predicate Plain(s: string) {
    forall i | 0 <= i < |s| :: PlainChar(s[i])
  }

  lemma {:induction false} PlainLen(s: string)
    requires Plain(s)
    ensures StrLen(s) == |s| + 2
  {
    if s != "" {
      PlainLen(s[1..]);
    }
  }

  /** Length of a printed integer. */
  function IntLen(n: int): nat {
    if n < 0 then 1 + Digits(-n) else Digits(n)
  }

  function BoolLen(b: bool): nat {
    if b then |"true"| else |"false"|
  }

  /** Elements with a comma each. */
  function ElementsLen<T>(items: seq<T>, len: T -> nat): nat {
    if items == [] then 0 else len(items[0]) + |","| + ElementsLen(items[1..], len)
  }

  function ArrayLen<T>(items: seq<T>, len: T -> nat): nat {
    if items == [] then |"[]"| else |"[]"| + ElementsLen(items, len) - |","|
  }
}
