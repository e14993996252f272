/**
 * The deterministic serialiser every hash in the program rests on.
 *
 * A number stands for its printed form, so the two zeros are one number. Strings hold Unicode
 * scalar values and are escaped as in section 7 of RFC 8259.
 */
module StableJson {
  import opened Prelude
  import opened Sorting

  datatype Json =
    | Null
    | Bool(b: bool)
    | Number(text: string)
    | Str(s: string)
    | Arr(items: Items)
    | Obj(members: Members)
    | Undefined

  datatype Items = NoItems | Item(head: Json, tail: Items)

  /** Members in insertion order. */
  datatype Members = NoMembers | Member(key: string, value: Json, rest: Members)

  // ---- strings ---------------------------------------------------------------

  const HEX: string := "0123456789abcdef"

  function EscapeChar(c: char): (t: string)
    ensures t != [] && t[0] != '"'
  {
    if c == '"' then "\\\""
    else if c == '\\' then "\\\\"
    else if c == 8 as char then "\\b"
    else if c == 9 as char then "\\t"
    else if c == 10 as char then "\\n"
    else if c == 12 as char then "\\f"
    else if c == 13 as char then "\\r"
    else if c < 32 as char then ['\\', 'u', '0', '0', HEX[c as int / 16], HEX[c as int % 16]]
    else [c]
  }

  function Escape(s: string): string {
    if s == [] then "" else EscapeChar(s[0]) + Escape(s[1..])
  }

  function Quote(s: string): string {
    "\"" + Escape(s) + "\""
  }

  // ---- the serialiser ----------------------------------------------------------

  function Join(parts: seq<string>): string {
    if parts == [] then ""
    else if |parts| == 1 then parts[0]
    else parts[0] + "," + Join(parts[1..])
  }

  datatype Keyed<T> = Keyed(key: string, value: T)

  function KeyOf<T>(e: Keyed<T>): string {
    e.key
  }

  /** Keys compare character by character. */
  predicate Leq(a: string, b: string) {
    a == [] || (b != [] && (a[0] < b[0] || (a[0] == b[0] && Leq(a[1..], b[1..]))))
  }

  function Scalar(v: Json): string {
    match v
    case Bool(b) => if b then "true" else "false"
    case Number(text) => text
    case Str(s) => Quote(s)
    case _ => "null"
  }

  function StableStringify(v: Json): string {
    match v
    case Arr(items) => "[" + Join(ItemTexts(items)) + "]"
    case Obj(members) => "{" + Join(Lines(Sort(MemberTexts(members), KeyOf<string>, Leq))) + "}"
    case _ => Scalar(v)
  }

  function ItemTexts(items: Items): seq<string> {
    match items
    case NoItems => []
    case Item(head, tail) => [StableStringify(head)] + ItemTexts(tail)
  }

  /** The members that are kept, each with its own text. */
  function MemberTexts(members: Members): seq<Keyed<string>> {
    match members
    case NoMembers => []
    case Member(key, value, rest) =>
      if value == Undefined then MemberTexts(rest) else [Keyed(key, StableStringify(value))] + MemberTexts(rest)
  }

  function Lines(entries: seq<Keyed<string>>): seq<string> {
    if entries == [] then [] else [Quote(entries[0].key) + ":" + entries[0].value] + Lines(entries[1..])
  }

  // ---- which values count as the same -------------------------------------------

  function Find(members: Members, key: string): Json {
    match members
    case NoMembers => Undefined
    case Member(k, value, rest) => if k == key then value else Find(rest, key)
  }

  /** Equal up to the order of object members and to undefined ones; elsewhere undefined reads as null. */
  predicate Same(a: Json, b: Json) {
    match a
    case Arr(items) => b.Arr? && SameItems(items, b.items)
    case Obj(members) => b.Obj? && Covers(members, b.members) && KeysCovered(b.members, members)
    case Null => b == Null || b == Undefined
    case Undefined => b == Null || b == Undefined
    case _ => a == b
  }

  predicate SameItems(xs: Items, ys: Items) {
    match xs
    case NoItems => ys.NoItems?
    case Item(head, tail) => ys.Item? && Same(head, ys.head) && SameItems(tail, ys.tail)
  }

  /** Every member that counts has a counterpart. */
  predicate Covers(ms: Members, ns: Members) {
    match ms
    case NoMembers => true
    case Member(key, value, rest) =>
      && (value != Undefined ==> Find(ns, key) != Undefined && Same(value, Find(ns, key)))
      && Covers(rest, ns)
  }

  predicate KeysCovered(ns: Members, ms: Members) {
    match ns
    case NoMembers => true
    case Member(key, value, rest) => (value != Undefined ==> Find(ms, key) != Undefined) && KeysCovered(rest, ms)
  }

  predicate HasKey(members: Members, key: string) {
    match members
    case NoMembers => false
    case Member(k, _, rest) => k == key || HasKey(rest, key)
  }

  predicate IsNumberChar(c: char) {
    '0' <= c <= '9' || c == '-' || c == '+' || c == '.' || c == 'e' || c == 'E'
  }

  predicate IsNumberText(text: string) {
    && text != []
    && ('0' <= text[0] <= '9' || text[0] == '-')
    && forall c :: c in text ==> IsNumberChar(c)
  }

  /** Objects have distinct keys and numbers print as numbers. */
  predicate Valid(v: Json) {
    match v
    case Number(text) => IsNumberText(text)
    case Arr(items) => ValidItems(items)
    case Obj(members) => ValidMembers(members)
    case _ => true
  }

  predicate ValidItems(items: Items) {
    match items
    case NoItems => true
    case Item(head, tail) => Valid(head) && ValidItems(tail)
  }

  predicate ValidMembers(members: Members) {
    match members
    case NoMembers => true
    case Member(key, value, rest) => Valid(value) && !HasKey(rest, key) && ValidMembers(rest)
  }

  // ---- the canonical tree ----------------------------------------------------------

  function Canon(v: Json): Json {
    match v
    case Undefined => Null
    case Arr(items) => Arr(CanonItems(items))
    case Obj(members) => Obj(ToMembers(Sort(CanonFields(members), KeyOf<Json>, Leq)))
    case _ => v
  }

  function CanonItems(items: Items): Items {
    match items
    case NoItems => NoItems
    case Item(head, tail) => Item(Canon(head), CanonItems(tail))
  }

  function CanonFields(members: Members): seq<Keyed<Json>> {
    match members
    case NoMembers => []
    case Member(key, value, rest) =>
      if value == Undefined then CanonFields(rest) else [Keyed(key, Canon(value))] + CanonFields(rest)
  }

  function ToMembers(fields: seq<Keyed<Json>>): Members {
    if fields == [] then NoMembers else Member(fields[0].key, fields[0].value, ToMembers(fields[1..]))
  }

  /** The text of a canonical tree, piece by piece. */
  function Show(v: Json): string {
    match v
    case Arr(items) => "[" + (match items case NoItems => "]" case Item(head, tail) => Show(head) + ShowRest(tail))
    case Obj(members) => "{" + (match members
                                case NoMembers => "}"
                                case Member(key, value, rest) => Quote(key) + ":" + Show(value) + ShowMore(rest))
    case _ => Scalar(v)
  }

  function ShowRest(items: Items): string {
    match items
    case NoItems => "]"
    case Item(head, tail) => "," + Show(head) + ShowRest(tail)
  }

  function ShowMore(members: Members): string {
    match members
    case NoMembers => "}"
    case Member(key, value, rest) => "," + (Quote(key) + ":" + Show(value)) + ShowMore(rest)
  }

  // ---- the serialiser prints the canonical tree ---------------------------------------

  function ShowAll(fields: seq<Keyed<Json>>): seq<Keyed<string>> {
    if fields == [] then [] else [Keyed(fields[0].key, Show(fields[0].value))] + ShowAll(fields[1..])
  }

  lemma {:induction false} InsertShows(f: Keyed<Json>, fields: seq<Keyed<Json>>)
    ensures ShowAll(Insert(f, fields, KeyOf<Json>, Leq))
            == Insert(Keyed(f.key, Show(f.value)), ShowAll(fields), KeyOf<string>, Leq)
  {
    if fields == [] {
      assert [f][1..] == [];
    } else if Leq(f.key, fields[0].key) {
      assert ([f] + fields)[1..] == fields;
    } else {
      InsertShows(f, fields[1..]);
      var rest := Insert(f, fields[1..], KeyOf<Json>, Leq);
      assert ([fields[0]] + rest)[1..] == rest;
      assert ShowAll(fields)[1..] == ShowAll(fields[1..]);
    }
  }

  lemma {:induction false} SortShows(fields: seq<Keyed<Json>>)
    ensures ShowAll(Sort(fields, KeyOf<Json>, Leq)) == Sort(ShowAll(fields), KeyOf<string>, Leq)
  {
    if fields != [] {
      SortShows(fields[1..]);
      InsertShows(fields[0], Sort(fields[1..], KeyOf<Json>, Leq));
      assert ShowAll(fields)[1..] == ShowAll(fields[1..]);
    }
  }

  /** Each part behind a comma, then the closing bracket. */
  function Tail(parts: seq<string>, close: string): string {
    if parts == [] then close else "," + parts[0] + Tail(parts[1..], close)
  }

  lemma {:induction false} JoinThenClose(parts: seq<string>, close: string)
    ensures Join(parts) + close == if parts == [] then close else parts[0] + Tail(parts[1..], close)
  {
    if |parts| > 1 {
      JoinThenClose(parts[1..], close);
      var rest := parts[1..];
      assert Join(parts) + close == parts[0] + ("," + (Join(rest) + close));
      assert Tail(rest, close) == "," + rest[0] + Tail(rest[1..], close);
      assert "," + (rest[0] + Tail(rest[1..], close)) == "," + rest[0] + Tail(rest[1..], close);
    } else if |parts| == 1 {
      assert parts[1..] == [];
    }
  }

  lemma {:induction false} RestIsTail(items: Items)
    ensures ShowRest(CanonItems(items)) == Tail(ItemTexts(items), "]")
    decreases items
  {
    match items
    case NoItems =>
    case Item(head, tail) =>
      PrintsCanon(head);
      RestIsTail(tail);
      assert ItemTexts(items)[1..] == ItemTexts(tail);
  }

  lemma {:induction false} MoreIsTail(fields: seq<Keyed<Json>>)
    ensures ShowMore(ToMembers(fields)) == Tail(Lines(ShowAll(fields)), "}")
  {
    if fields != [] {
      MoreIsTail(fields[1..]);
      assert ShowAll(fields)[1..] == ShowAll(fields[1..]);
      assert Lines(ShowAll(fields))[1..] == Lines(ShowAll(fields[1..]));
    }
  }

  lemma {:induction false} TextsAreShown(members: Members)
    ensures MemberTexts(members) == ShowAll(CanonFields(members))
    decreases members
  {
    match members
    case NoMembers =>
    case Member(key, value, rest) =>
      PrintsCanon(value);
      TextsAreShown(rest);
      assert ([Keyed(key, Canon(value))] + CanonFields(rest))[1..] == CanonFields(rest);
  }

  lemma ObjectText(fields: seq<Keyed<Json>>)
    ensures Show(Obj(ToMembers(fields))) == "{" + Join(Lines(ShowAll(fields))) + "}"
  {
    JoinThenClose(Lines(ShowAll(fields)), "}");
    if fields != [] {
      MoreIsTail(fields[1..]);
      assert ShowAll(fields)[1..] == ShowAll(fields[1..]);
      assert Lines(ShowAll(fields))[1..] == Lines(ShowAll(fields[1..]));
    }
    assert "{" + (Join(Lines(ShowAll(fields))) + "}") == "{" + Join(Lines(ShowAll(fields))) + "}";
  }

  /** What is printed depends on the canonical tree alone. */
  lemma {:induction false} PrintsCanon(v: Json)
    ensures StableStringify(v) == Show(Canon(v))
    decreases v
  {
    match v
    case Arr(items) =>
      JoinThenClose(ItemTexts(items), "]");
      match items {
        case NoItems =>
        case Item(head, tail) =>
          PrintsCanon(head);
          RestIsTail(tail);
          assert ItemTexts(items)[1..] == ItemTexts(tail);
      }
      assert "[" + (Join(ItemTexts(items)) + "]") == "[" + Join(ItemTexts(items)) + "]";
    case Obj(members) =>
      TextsAreShown(members);
      SortShows(CanonFields(members));
      ObjectText(Sort(CanonFields(members), KeyOf<Json>, Leq));
    case _ =>
  }
}
