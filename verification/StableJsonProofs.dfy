/** Equal texts, equal values: the serialiser loses nothing that matters and keeps nothing that does not. */
module StableJsonProofs {
  import opened Prelude
  import opened Sorting
  import opened StableJson

  // ---- reading a text back ------------------------------------------------------

  datatype Parsed<T> = Parsed(value: T, rest: string) | Fail

  function HexValue(c: char): int {
    if '0' <= c <= '9' then c as int - '0' as int else if 'a' <= c <= 'f' then c as int - 'a' as int + 10 else 0
  }

  function ReadChar(s: string): (r: Parsed<char>)
    ensures r.Parsed? ==> |r.rest| < |s|
  {
    if s == [] then Fail
    else if s[0] != '\\' then Parsed(s[0], s[1..])
    else if |s| < 2 then Fail
    else if s[1] == 'b' then Parsed(8 as char, s[2..])
    else if s[1] == 't' then Parsed(9 as char, s[2..])
    else if s[1] == 'n' then Parsed(10 as char, s[2..])
    else if s[1] == 'f' then Parsed(12 as char, s[2..])
    else if s[1] == 'r' then Parsed(13 as char, s[2..])
    else if s[1] == 'u' then
      if |s| < 6 then Fail else Parsed((HexValue(s[4]) * 16 + HexValue(s[5])) as char, s[6..])
    else Parsed(s[1], s[2..])
  }

  /** Up to and including the closing quote. */
  function ReadString(s: string): (r: Parsed<string>)
    ensures r.Parsed? ==> |r.rest| < |s|
    decreases |s|
  {
    if s == [] then Fail
    else if s[0] == '"' then Parsed("", s[1..])
    else
      match ReadChar(s)
      case Fail => Fail
      case Parsed(c, rest) =>
        match ReadString(rest)
        case Fail => Fail
        case Parsed(t, after) => Parsed([c] + t, after)
  }

  function NumberLength(s: string): (n: nat)
    ensures n <= |s|
  {
    if s == [] || !IsNumberChar(s[0]) then 0 else 1 + NumberLength(s[1..])
  }

  function ReadValue(s: string): (r: Parsed<Json>)
    ensures r.Parsed? ==> |r.rest| <= |s|
    decreases |s|, 0
  {
    if s == [] then Fail
    else if s[0] == 'n' then (if |s| < 4 then Fail else Parsed(Null, s[4..]))
    else if s[0] == 't' then (if |s| < 4 then Fail else Parsed(Bool(true), s[4..]))
    else if s[0] == 'f' then (if |s| < 5 then Fail else Parsed(Bool(false), s[5..]))
    else if s[0] == '"' then
      match ReadString(s[1..])
      case Fail => Fail
      case Parsed(t, rest) => Parsed(Str(t), rest)
    else if s[0] == '[' then ReadArray(s[1..])
    else if s[0] == '{' then ReadObject(s[1..])
    else Parsed(Number(s[..NumberLength(s)]), s[NumberLength(s)..])
  }

  function ReadArray(s: string): (r: Parsed<Json>)
    ensures r.Parsed? ==> |r.rest| <= |s|
    decreases |s|, 1
  {
    if s != [] && s[0] == ']' then Parsed(Arr(NoItems), s[1..])
    else
      match ReadValue(s)
      case Fail => Fail
      case Parsed(head, rest) =>
        match ReadRest(rest)
        case Fail => Fail
        case Parsed(tail, after) => Parsed(Arr(Item(head, tail)), after)
  }

  function ReadRest(s: string): (r: Parsed<Items>)
    ensures r.Parsed? ==> |r.rest| <= |s|
    decreases |s|, 0
  {
    if s == [] then Fail
    else if s[0] == ']' then Parsed(NoItems, s[1..])
    else
      match ReadValue(s[1..])
      case Fail => Fail
      case Parsed(head, rest) =>
        match ReadRest(rest)
        case Fail => Fail
        case Parsed(tail, after) => Parsed(Item(head, tail), after)
  }

  function ReadMember(s: string): (r: Parsed<Keyed<Json>>)
    ensures r.Parsed? ==> |r.rest| <= |s|
    decreases |s|, 0
  {
    if s == [] then Fail
    else
      match ReadString(s[1..])
      case Fail => Fail
      case Parsed(key, rest) =>
        if rest == [] then Fail
        else
          match ReadValue(rest[1..])
          case Fail => Fail
          case Parsed(value, after) => Parsed(Keyed(key, value), after)
  }

  function ReadObject(s: string): (r: Parsed<Json>)
    ensures r.Parsed? ==> |r.rest| <= |s|
    decreases |s|, 1
  {
    if s != [] && s[0] == '}' then Parsed(Obj(NoMembers), s[1..])
    else
      match ReadMember(s)
      case Fail => Fail
      case Parsed(f, rest) =>
        match ReadMore(rest)
        case Fail => Fail
        case Parsed(tail, after) => Parsed(Obj(Member(f.key, f.value, tail)), after)
  }

  function ReadMore(s: string): (r: Parsed<Members>)
    ensures r.Parsed? ==> |r.rest| <= |s|
    decreases |s|, 0
  {
    if s == [] then Fail
    else if s[0] == '}' then Parsed(NoMembers, s[1..])
    else
      match ReadMember(s[1..])
      case Fail => Fail
      case Parsed(f, rest) =>
        match ReadMore(rest)
        case Fail => Fail
        case Parsed(tail, after) => Parsed(Member(f.key, f.value, tail), after)
  }

  // ---- reading undoes printing -----------------------------------------------------

  /** What may follow a value inside a larger text. */
  predicate Stop(x: string) {
    x == [] || x[0] == ',' || x[0] == ']' || x[0] == '}'
  }

  /** Trees the printer is given: no undefined left, numbers well formed. */
  predicate Printable(v: Json) {
    match v
    case Undefined => false
    case Number(text) => IsNumberText(text)
    case Arr(items) => PrintableItems(items)
    case Obj(members) => PrintableMembers(members)
    case _ => true
  }

  predicate PrintableItems(items: Items) {
    match items
    case NoItems => true
    case Item(head, tail) => Printable(head) && PrintableItems(tail)
  }

  predicate PrintableMembers(members: Members) {
    match members
    case NoMembers => true
    case Member(_, value, rest) => Printable(value) && PrintableMembers(rest)
  }

  lemma HexRoundTrip(n: nat)
    requires n < 16
    ensures HexValue(HEX[n]) == n
  {
  }

  predicate HasShortEscape(c: char) {
    c == '"' || c == '\\' || c == 8 as char || c == 9 as char || c == 10 as char || c == 12 as char || c == 13 as char
  }

  lemma ControlReadsBack(c: char, x: string)
    requires c < 32 as char && !HasShortEscape(c)
    ensures ReadChar(EscapeChar(c) + x) == Parsed(c, x)
  {
    hide HexValue;
    var hi, lo := c as int / 16, c as int % 16;
    HexRoundTrip(hi);
    HexRoundTrip(lo);
    var t := ['\\', 'u', '0', '0', HEX[hi], HEX[lo]];
    assert EscapeChar(c) == t;
    assert (t + x)[4] == HEX[hi] && (t + x)[5] == HEX[lo] && (t + x)[6..] == x;
  }

  lemma ShortEscapeReadsBack(c: char, x: string)
    requires HasShortEscape(c)
    ensures ReadChar(EscapeChar(c) + x) == Parsed(c, x)
  {
    hide HexValue;
    var t := EscapeChar(c);
    assert |t| == 2 && t[0] == '\\';
    assert (t + x)[1] == t[1] && (t + x)[2..] == x;
  }

  lemma CharReadsBack(c: char, x: string)
    ensures ReadChar(EscapeChar(c) + x) == Parsed(c, x)
  {
    if HasShortEscape(c) {
      ShortEscapeReadsBack(c, x);
    } else if c < 32 as char {
      ControlReadsBack(c, x);
    } else {
      assert EscapeChar(c) == [c] && ([c] + x)[1..] == x;
    }
  }

  lemma {:induction false} StringReadsBack(t: string, x: string)
    ensures ReadString(Escape(t) + ("\"" + x)) == Parsed(t, x)
  {
    hide EscapeChar, ReadChar;
    var s := Escape(t) + ("\"" + x);
    if t == [] {
      assert s == "\"" + x;
    } else {
      var rest := Escape(t[1..]) + ("\"" + x);
      assert s == EscapeChar(t[0]) + rest;
      CharReadsBack(t[0], rest);
      StringReadsBack(t[1..], x);
      assert [t[0]] + t[1..] == t;
    }
  }

  lemma {:induction false} NumberReadsBack(text: string, x: string)
    requires forall c :: c in text ==> IsNumberChar(c)
    requires Stop(x)
    ensures NumberLength(text + x) == |text|
  {
    if text == [] {
      assert text + x == x;
    } else {
      assert (text + x)[1..] == text[1..] + x;
      assert text[0] in text && forall c :: c in text[1..] ==> c in text;
      NumberReadsBack(text[1..], x);
    }
  }

  lemma NumberValueReadsBack(text: string, x: string)
    requires IsNumberText(text) && Stop(x)
    ensures ReadValue(text + x) == Parsed(Number(text), x)
  {
    hide ReadString, ReadArray, ReadObject;
    NumberReadsBack(text, x);
    var s := text + x;
    assert s[0] == text[0];
    assert s[..|text|] == text && s[|text|..] == x;
  }

  lemma StringValueReadsBack(t: string, x: string)
    ensures ReadValue(Quote(t) + x) == Parsed(Str(t), x)
  {
    hide ReadString, ReadArray, ReadObject, Escape, NumberLength;
    StringReadsBack(t, x);
    var s := Quote(t) + x;
    assert s == "\"" + (Escape(t) + ("\"" + x));
    assert s[1..] == Escape(t) + ("\"" + x);
  }

  lemma WordReadsBack(v: Json, x: string)
    requires v.Null? || v.Bool?
    ensures ReadValue(Scalar(v) + x) == Parsed(v, x)
  {
    hide ReadString, ReadArray, ReadObject, NumberLength, Quote;
    var s := Scalar(v) + x;
    assert s[0] == Scalar(v)[0];
    assert s[|Scalar(v)|..] == x;
  }

  lemma ScalarReadsBack(v: Json, x: string)
    requires Printable(v) && !v.Arr? && !v.Obj? && Stop(x)
    ensures ReadValue(Show(v) + x) == Parsed(v, x)
  {
    hide ReadValue, Quote, Stop;
    match v
    case Number(text) => NumberValueReadsBack(text, x);
    case Str(t) => StringValueReadsBack(t, x);
    case _ => WordReadsBack(v, x);
  }

  lemma OpensWith(s: string, rest: string)
    requires s != [] && s[1..] == rest
    ensures s[0] == '[' ==> ReadValue(s) == ReadArray(rest)
    ensures s[0] == '{' ==> ReadValue(s) == ReadObject(rest)
  {
    hide ReadString, ReadArray, ReadObject, NumberLength;
  }

  lemma {:induction false} ValueReadsBack(v: Json, x: string)
    requires Printable(v) && Stop(x)
    ensures ReadValue(Show(v) + x) == Parsed(v, x)
    decreases v, 0
  {
    match v
    case Arr(items) => ArrayReadsBack(items, x);
    case Obj(members) => ObjectReadsBack(members, x);
    case _ => ScalarReadsBack(v, x);
  }

  lemma {:induction false} ArrayReadsBack(items: Items, x: string)
    requires PrintableItems(items) && Stop(x)
    ensures ReadValue(Show(Arr(items)) + x) == Parsed(Arr(items), x)
    decreases items, 1
  {
    hide ReadValue, ReadRest, ShowRest, Scalar, Stop;
    var s := Show(Arr(items)) + x;
    OpensWith(s, s[1..]);
    match items
    case NoItems =>
      assert s[1..] == "]" + x;
      assert ("]" + x)[1..] == x;
    case Item(head, tail) =>
      assert s[1..] == Show(head) + (ShowRest(tail) + x);
      StartsValue(head, ShowRest(tail) + x);
      RestStops(tail, x);
      ValueReadsBack(head, ShowRest(tail) + x);
      RestReadsBack(tail, x);
  }

  lemma {:induction false} ObjectReadsBack(members: Members, x: string)
    requires PrintableMembers(members) && Stop(x)
    ensures ReadValue(Show(Obj(members)) + x) == Parsed(Obj(members), x)
    decreases members, 1
  {
    hide ReadValue, ReadMember, ReadMore, ShowMore, Scalar, Stop, Quote;
    var s := Show(Obj(members)) + x;
    OpensWith(s, s[1..]);
    match members
    case NoMembers =>
      assert s[1..] == "}" + x;
      assert ("}" + x)[1..] == x;
    case Member(key, value, rest) =>
      assert s[1..] == (Quote(key) + ":" + Show(value)) + (ShowMore(rest) + x);
      MoreStops(rest, x);
      MemberReadsBack(key, value, ShowMore(rest) + x);
      MoreReadsBack(rest, x);
  }

  /** A value never begins like a closing bracket. */
  lemma StartsValue(v: Json, x: string)
    requires Printable(v)
    ensures Show(v) != [] && (Show(v) + x)[0] != ']'
  {
  }

  lemma RestStops(items: Items, x: string)
    ensures Stop(ShowRest(items) + x)
  {
    assert (ShowRest(items) + x)[0] == if items.NoItems? then ']' else ',';
  }

  lemma MoreStops(members: Members, x: string)
    ensures Stop(ShowMore(members) + x)
  {
    assert (ShowMore(members) + x)[0] == if members.NoMembers? then '}' else ',';
  }

  lemma {:induction false} RestReadsBack(items: Items, x: string)
    requires PrintableItems(items)
    ensures ReadRest(ShowRest(items) + x) == Parsed(items, x)
    decreases items, 0
  {
    hide ReadValue, Show, Stop, Printable;
    var s := ShowRest(items) + x;
    match items
    case NoItems =>
      assert s[1..] == x;
    case Item(head, tail) =>
      assert s[1..] == Show(head) + (ShowRest(tail) + x);
      RestStops(tail, x);
      ValueReadsBack(head, ShowRest(tail) + x);
      RestReadsBack(tail, x);
  }

  lemma {:induction false} MemberReadsBack(key: string, value: Json, x: string)
    requires Printable(value) && Stop(x)
    ensures ReadMember((Quote(key) + ":" + Show(value)) + x) == Parsed(Keyed(key, value), x)
    ensures ((Quote(key) + ":" + Show(value)) + x)[0] == '"'
    decreases value, 1
  {
    hide ReadString, Escape, Show, ReadValue;
    var s := (Quote(key) + ":" + Show(value)) + x;
    var after := ":" + (Show(value) + x);
    assert s == "\"" + (Escape(key) + ("\"" + after));
    assert s[1..] == Escape(key) + ("\"" + after);
    StringReadsBack(key, after);
    assert after[1..] == Show(value) + x;
    ValueReadsBack(value, x);
  }

  lemma {:induction false} MoreReadsBack(members: Members, x: string)
    requires PrintableMembers(members)
    ensures ReadMore(ShowMore(members) + x) == Parsed(members, x)
    decreases members, 0
  {
    hide ReadMember, Quote, Show, Stop, Printable;
    var s := ShowMore(members) + x;
    match members
    case NoMembers =>
      assert s[1..] == x;
    case Member(key, value, rest) =>
      assert s[1..] == (Quote(key) + ":" + Show(value)) + (ShowMore(rest) + x);
      MoreStops(rest, x);
      MemberReadsBack(key, value, ShowMore(rest) + x);
      MoreReadsBack(rest, x);
  }

  // ---- canonical trees can be printed -----------------------------------------------

  lemma {:induction false} FieldsPrintable(fields: seq<Keyed<Json>>)
    requires forall f :: f in fields ==> Printable(f.value)
    ensures PrintableMembers(ToMembers(fields))
  {
    if fields != [] {
      FieldsPrintable(fields[1..]);
    }
  }

  lemma {:induction false} CanonFieldsPrintable(members: Members)
    requires ValidMembers(members)
    ensures forall f :: f in CanonFields(members) ==> Printable(f.value)
    decreases members
  {
    match members
    case NoMembers =>
    case Member(_, value, rest) =>
      CanonPrintable(value);
      CanonFieldsPrintable(rest);
  }

  lemma {:induction false} CanonItemsPrintable(items: Items)
    requires ValidItems(items)
    ensures PrintableItems(CanonItems(items))
    decreases items
  {
    match items
    case NoItems =>
    case Item(head, tail) =>
      CanonPrintable(head);
      CanonItemsPrintable(tail);
  }

  lemma {:induction false} CanonPrintable(v: Json)
    requires Valid(v)
    ensures Printable(Canon(v))
    decreases v
  {
    match v
    case Arr(items) => CanonItemsPrintable(items);
    case Obj(members) =>
      var fields := CanonFields(members);
      CanonFieldsPrintable(members);
      SortPermutes(fields, KeyOf<Json>, Leq);
      forall f | f in Sort(fields, KeyOf<Json>, Leq) ensures Printable(f.value) {
        assert f in multiset(fields);
      }
      FieldsPrintable(Sort(fields, KeyOf<Json>, Leq));
    case _ =>
  }

  /** Reading a serialised value gives back its canonical tree. */
  lemma RoundTrip(v: Json)
    requires Valid(v)
    ensures ReadValue(StableStringify(v)) == Parsed(Canon(v), "")
  {
    PrintsCanon(v);
    CanonPrintable(v);
    ValueReadsBack(Canon(v), "");
    assert Show(Canon(v)) + "" == Show(Canon(v));
  }

  // ---- the key order is a total order --------------------------------------------------

  lemma {:induction false} LeqTotal(a: string, b: string)
    ensures Leq(a, b) || Leq(b, a)
    ensures Leq(a, b) && Leq(b, a) ==> a == b
  {
    if a != [] && b != [] && a[0] == b[0] {
      LeqTotal(a[1..], b[1..]);
      assert a == [a[0]] + a[1..] && b == [b[0]] + b[1..];
    }
  }

  lemma {:induction false} LeqTransitive(a: string, b: string, c: string)
    requires Leq(a, b) && Leq(b, c)
    ensures Leq(a, c)
  {
    if a != [] && a[0] == b[0] && b[0] == c[0] {
      LeqTransitive(a[1..], b[1..], c[1..]);
    }
  }

  lemma LeqIsTotalOrder()
    ensures TotalOrder(Leq)
  {
    forall a, b ensures (Leq(a, b) || Leq(b, a)) && (Leq(a, b) && Leq(b, a) ==> a == b) {
      LeqTotal(a, b);
    }
    forall a, b, c | Leq(a, b) && Leq(b, c) ensures Leq(a, c) {
      LeqTransitive(a, b, c);
    }
  }

  /** At the first place where they differ, or where one of them ends, the first key comes first. */
  predicate FirstDifference(a: string, b: string, k: nat) {
    k <= |a| && k < |b| && a[..k] == b[..k] && (k == |a| || a[k] < b[k])
  }

  /** The order of members is the lexicographic one, a key before its own extensions. */
  lemma {:induction false} LeqIsLexicographic(a: string, b: string)
    ensures Leq(a, b) <==> a == b || exists k: nat :: FirstDifference(a, b, k)
  {
    if a == b {
      LeqTotal(a, b);
    } else if a == [] {
      assert FirstDifference(a, b, 0);
    } else if b != [] && a[0] == b[0] {
      LeqIsLexicographic(a[1..], b[1..]);
      assert a == [a[0]] + a[1..] && b == [b[0]] + b[1..];
      forall k: nat ensures FirstDifference(a, b, k + 1) <==> FirstDifference(a[1..], b[1..], k) {
        assert k < |a| && k < |b| ==> a[..k + 1] == [a[0]] + a[1..][..k] && b[..k + 1] == [b[0]] + b[1..][..k];
      }
      assert !FirstDifference(a, b, 0);
      if k: nat :| FirstDifference(a, b, k) {
        assert FirstDifference(a[1..], b[1..], k - 1);
      }
    } else if b != [] {
      assert FirstDifference(a, b, 0) <==> a[0] < b[0];
      assert forall k: nat :: k > 0 && k <= |a| && k < |b| ==> a[..k][0] == a[0] && b[..k][0] == b[0];
    }
  }

  /** Two members are printed in that order, whichever was inserted first. */
  lemma PrintsMembersInOrder(j: string, v: Json, k: string, w: Json)
    requires j != k && Leq(j, k) && v != Undefined && w != Undefined
    ensures var text := "{" + (Quote(j) + ":" + StableStringify(v)) + "," + (Quote(k) + ":" + StableStringify(w)) + "}";
            && StableStringify(Obj(Member(j, v, Member(k, w, NoMembers)))) == text
            && StableStringify(Obj(Member(k, w, Member(j, v, NoMembers)))) == text
  {
    hide Leq, Sort, StableStringify, MemberTexts, Lines;
    LeqTotal(j, k);
    LeqTotal(k, j);
    var first, second := Keyed(j, StableStringify(v)), Keyed(k, StableStringify(w));
    var ms, ns := Member(j, v, Member(k, w, NoMembers)), Member(k, w, Member(j, v, NoMembers));
    TwoMemberTexts(j, v, k, w);
    TwoMemberTexts(k, w, j, v);
    TwoSorted(first, second);
    TwoLines(first, second);
    ObjectTextIs(ms);
    ObjectTextIs(ns);
  }

  lemma ObjectTextIs(ms: Members)
    ensures StableStringify(Obj(ms)) == "{" + Join(Lines(Sort(MemberTexts(ms), KeyOf<string>, Leq))) + "}"
  {
    hide MemberTexts, Join, Lines, Sort;
  }

  lemma TwoMemberTexts(j: string, v: Json, k: string, w: Json)
    requires v != Undefined && w != Undefined
    ensures MemberTexts(Member(j, v, Member(k, w, NoMembers))) == [Keyed(j, StableStringify(v)), Keyed(k, StableStringify(w))]
  {
    hide StableStringify;
    assert MemberTexts(Member(k, w, NoMembers)) == [Keyed(k, StableStringify(w))] + MemberTexts(NoMembers);
  }

  lemma TwoLines(first: Keyed<string>, second: Keyed<string>)
    ensures var a, b := Quote(first.key) + ":" + first.value, Quote(second.key) + ":" + second.value;
            Join(Lines([first, second])) == a + "," + b
  {
    hide Quote;
    var a, b := Quote(first.key) + ":" + first.value, Quote(second.key) + ":" + second.value;
    assert [first, second][1..] == [second] && [second][1..] == [];
    assert Lines([second]) == [b] + Lines([]);
    assert Lines([first, second]) == [a] + Lines([second]);
    assert [a, b][1..] == [b];
    assert Join([b]) == b;
  }

  lemma TwoSorted(first: Keyed<string>, second: Keyed<string>)
    requires Leq(first.key, second.key) && !Leq(second.key, first.key)
    ensures Sort([first, second], KeyOf<string>, Leq) == [first, second]
    ensures Sort([second, first], KeyOf<string>, Leq) == [first, second]
  {
    hide Leq;
    assert [first, second][1..] == [second] && [second, first][1..] == [first];
    assert [second][1..] == [] && [first][1..] == [];
    assert Sort([second], KeyOf<string>, Leq) == [second];
    assert Sort([first], KeyOf<string>, Leq) == [first];
  }

  // ---- canonical trees are equal exactly when the values are the same ---------------------

  lemma {:induction false} FieldsAre(members: Members, key: string, w: Json)
    requires ValidMembers(members)
    ensures Keyed(key, w) in CanonFields(members) <==> Find(members, key) != Undefined && w == Canon(Find(members, key))
    ensures Find(members, key) != Undefined ==> HasKey(members, key)
  {
    if members.Member? {
      FieldsAre(members.rest, key, w);
    }
  }

  lemma {:induction false} FieldKeysDistinct(members: Members)
    requires ValidMembers(members)
    ensures DistinctKeys(CanonFields(members), KeyOf<Json>)
  {
    if members.Member? {
      FieldKeysDistinct(members.rest);
      var rest := CanonFields(members.rest);
      forall j | 0 <= j < |rest| ensures rest[j].key != members.key {
        FieldsAre(members.rest, rest[j].key, rest[j].value);
      }
    }
  }

  lemma {:induction false} KeysCoveredMeans(ns: Members, ms: Members)
    ensures KeysCovered(ns, ms) <==> forall f :: f in CanonFields(ns) ==> Find(ms, f.key) != Undefined
  {
    if ns.Member? {
      KeysCoveredMeans(ns.rest, ms);
      if ns.value != Undefined {
        assert CanonFields(ns)[0] == Keyed(ns.key, Canon(ns.value));
        assert forall f :: f in CanonFields(ns.rest) ==> f in CanonFields(ns);
      }
    }
  }

  lemma DistinctCount<T(!new)>(xs: seq<T>, key: T -> string, x: T)
    requires DistinctKeys(xs, key)
    ensures multiset(xs)[x] == if x in xs then 1 else 0
  {
    if x in xs {
      var a :| 0 <= a < |xs| && xs[a] == x;
      OnceIn(xs, key, a);
    }
  }

  ghost predicate SameSet<T(!new)>(xs: seq<T>, ys: seq<T>) {
    forall x :: x in xs <==> x in ys
  }

  lemma SameElements<T(!new)>(xs: seq<T>, ys: seq<T>, key: T -> string)
    requires DistinctKeys(xs, key) && DistinctKeys(ys, key)
    ensures multiset(xs) == multiset(ys) <==> SameSet(xs, ys)
  {
    forall x ensures multiset(xs)[x] == (if x in xs then 1 else 0) && multiset(ys)[x] == (if x in ys then 1 else 0) {
      DistinctCount(xs, key, x);
      DistinctCount(ys, key, x);
    }
    if multiset(xs) == multiset(ys) {
      forall x ensures x in xs <==> x in ys {
        assert x in multiset(xs) <==> x in multiset(ys);
      }
    }
  }

  lemma {:induction false} ToMembersInjective(fs: seq<Keyed<Json>>, gs: seq<Keyed<Json>>)
    ensures ToMembers(fs) == ToMembers(gs) <==> fs == gs
  {
    if fs != [] && gs != [] {
      ToMembersInjective(fs[1..], gs[1..]);
      assert fs == [fs[0]] + fs[1..] && gs == [gs[0]] + gs[1..];
    }
  }

  lemma {:induction false} CoversMeans(ms: Members, ns: Members)
    requires ValidMembers(ms) && ValidMembers(ns)
    ensures Covers(ms, ns) <==> forall f :: f in CanonFields(ms) ==> f in CanonFields(ns)
    decreases ms
  {
    if ms.Member? {
      CoversMeans(ms.rest, ns);
      if ms.value != Undefined {
        var f := Keyed(ms.key, Canon(ms.value));
        FieldsAre(ns, ms.key, Canon(ms.value));
        if Find(ns, ms.key) != Undefined {
          FoundIsValid(ns, ms.key);
          CanonIffSame(ms.value, Find(ns, ms.key));
        }
        assert CanonFields(ms) == [f] + CanonFields(ms.rest);
      }
    }
  }

  lemma {:induction false} FoundIsValid(members: Members, key: string)
    requires ValidMembers(members)
    ensures Valid(Find(members, key))
  {
    if members.Member? {
      FoundIsValid(members.rest, key);
    }
  }

  lemma {:induction false} ItemsIffSame(xs: Items, ys: Items)
    requires ValidItems(xs) && ValidItems(ys)
    ensures CanonItems(xs) == CanonItems(ys) <==> SameItems(xs, ys)
    decreases xs
  {
    if xs.Item? && ys.Item? {
      CanonIffSame(xs.head, ys.head);
      ItemsIffSame(xs.tail, ys.tail);
    }
  }

  /** Sorting distinctly keyed fields keeps exactly their set. */
  lemma ObjectsIffFields(ms: Members, ns: Members)
    requires ValidMembers(ms) && ValidMembers(ns)
    ensures Canon(Obj(ms)) == Canon(Obj(ns)) <==> SameSet(CanonFields(ms), CanonFields(ns))
  {
    hide Sort, ValidMembers, CanonFields, ToMembers, DistinctKeys, SameSet;
    var fs, gs := CanonFields(ms), CanonFields(ns);
    LeqIsTotalOrder();
    FieldKeysDistinct(ms);
    FieldKeysDistinct(ns);
    DistinctKeysIdentify(fs, KeyOf<Json>);
    SortCanonical(fs, gs, KeyOf<Json>, Leq);
    SameElements(fs, gs, KeyOf<Json>);
    ToMembersInjective(Sort(fs, KeyOf<Json>, Leq), Sort(gs, KeyOf<Json>, Leq));
    assert Canon(Obj(ms)) == Obj(ToMembers(Sort(fs, KeyOf<Json>, Leq)));
    assert Canon(Obj(ns)) == Obj(ToMembers(Sort(gs, KeyOf<Json>, Leq)));
    assert Canon(Obj(ms)) == Canon(Obj(ns)) <==> multiset(fs) == multiset(gs);
  }

  lemma MembersIffSame(ms: Members, ns: Members)
    requires ValidMembers(ms) && ValidMembers(ns)
    requires Covers(ms, ns) <==> forall f :: f in CanonFields(ms) ==> f in CanonFields(ns)
    ensures Canon(Obj(ms)) == Canon(Obj(ns)) <==> Covers(ms, ns) && KeysCovered(ns, ms)
  {
    hide Covers, KeysCovered, Canon, CanonFields, ValidMembers;
    var fs, gs := CanonFields(ms), CanonFields(ns);
    ObjectsIffFields(ms, ns);
    KeysCoveredMeans(ns, ms);
    forall f | f in gs ensures f in fs ==> Find(ms, f.key) != Undefined {
      FieldsAre(ms, f.key, f.value);
    }
    if Covers(ms, ns) && KeysCovered(ns, ms) {
      forall f | f in gs ensures f in fs {
        var w := Canon(Find(ms, f.key));
        FieldsAre(ms, f.key, w);
        FieldsAre(ns, f.key, w);
        FieldsAre(ns, f.key, f.value);
        assert f == Keyed(f.key, f.value);
      }
    }
  }

  lemma {:induction false} CanonIffSame(a: Json, b: Json)
    requires Valid(a) && Valid(b)
    ensures Canon(a) == Canon(b) <==> Same(a, b)
    decreases a
  {
    match a
    case Arr(items) =>
      if b.Arr? { ItemsIffSame(items, b.items); }
    case Obj(members) =>
      if b.Obj? {
        CoversMeans(members, b.members);
        MembersIffSame(members, b.members);
      }
    case _ =>
  }

  /** The serialiser is exact: equal texts for the same value, different texts for different values. */
  lemma EqualTextIffSame(a: Json, b: Json)
    requires Valid(a) && Valid(b)
    ensures StableStringify(a) == StableStringify(b) <==> Same(a, b)
  {
    RoundTrip(a);
    RoundTrip(b);
    PrintsCanon(a);
    PrintsCanon(b);
    CanonIffSame(a, b);
  }
}
