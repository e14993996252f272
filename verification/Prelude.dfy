/** Datatypes and the generic stable-order sort shared by the other modules. */
module Prelude {

  datatype Option<+T> = None | Some(value: T)

  datatype Result<+T, +E> = Ok(value: T) | Err(error: E)

  function Max(a: int, b: int): int {
    if a < b then b else a
  }

  function Min(a: int, b: int): int {
    if a < b then a else b
  }

  function Abs(a: int): nat {
    if a < 0 then -a else a
  }
}

/**
 * Sorting a sequence by a key, under any total order on the keys.
 *
 * The program sorts with JavaScript's default string order in one place and with
 * `localeCompare` in another. Nothing below depends on which total order is used.
 */
module Sorting {

  ghost predicate TotalOrder<K(!new)>(le: (K, K) -> bool) {
    && (forall a, b :: le(a, b) || le(b, a))
    && (forall a, b :: le(a, b) && le(b, a) ==> a == b)
    && (forall a, b, c :: le(a, b) && le(b, c) ==> le(a, c))
  }

  ghost predicate Sorted<T, K>(xs: seq<T>, key: T -> K, le: (K, K) -> bool) {
    forall i, j :: 0 <= i < j < |xs| ==> le(key(xs[i]), key(xs[j]))
  }

  ghost predicate DistinctKeys<T, K>(xs: seq<T>, key: T -> K) {
    forall i, j :: 0 <= i < j < |xs| ==> key(xs[i]) != key(xs[j])
  }

  /** Equal keys mean equal elements. */
  ghost predicate KeysIdentify<T, K>(xs: seq<T>, key: T -> K) {
    forall i, j :: 0 <= i < |xs| && 0 <= j < |xs| && key(xs[i]) == key(xs[j]) ==> xs[i] == xs[j]
  }

  lemma DistinctKeysIdentify<T, K>(xs: seq<T>, key: T -> K)
    requires DistinctKeys(xs, key)
    ensures KeysIdentify(xs, key)
  {
    forall i, j | 0 <= i < |xs| && 0 <= j < |xs| && key(xs[i]) == key(xs[j]) ensures xs[i] == xs[j] {
      assert !(i < j) && !(j < i);
    }
  }

  function Insert<T, K>(x: T, xs: seq<T>, key: T -> K, le: (K, K) -> bool): seq<T> {
    if xs == [] || le(key(x), key(xs[0])) then [x] + xs
    else [xs[0]] + Insert(x, xs[1..], key, le)
  }

  function Sort<T, K>(xs: seq<T>, key: T -> K, le: (K, K) -> bool): seq<T> {
    if xs == [] then [] else Insert(xs[0], Sort(xs[1..], key, le), key, le)
  }

  lemma {:induction false} InsertPermutes<T, K>(x: T, xs: seq<T>, key: T -> K, le: (K, K) -> bool)
    ensures multiset(Insert(x, xs, key, le)) == multiset([x]) + multiset(xs)
  {
    if xs == [] || le(key(x), key(xs[0])) {
    } else {
      InsertPermutes(x, xs[1..], key, le);
      assert xs == [xs[0]] + xs[1..];
    }
  }

  lemma {:induction false} SortPermutes<T, K>(xs: seq<T>, key: T -> K, le: (K, K) -> bool)
    ensures multiset(Sort(xs, key, le)) == multiset(xs)
    ensures |Sort(xs, key, le)| == |xs|
  {
    if xs != [] {
      SortPermutes(xs[1..], key, le);
      InsertPermutes(xs[0], Sort(xs[1..], key, le), key, le);
      assert xs == [xs[0]] + xs[1..];
    }
    assert |multiset(Sort(xs, key, le))| == |multiset(xs)|;
  }

  lemma {:induction false} InsertSorts<T, K(!new)>(x: T, xs: seq<T>, key: T -> K, le: (K, K) -> bool)
    requires TotalOrder(le) && Sorted(xs, key, le)
    ensures Sorted(Insert(x, xs, key, le), key, le)
  {
    if xs == [] || le(key(x), key(xs[0])) {
      assert forall j :: 0 <= j < |xs| ==> le(key(x), key(xs[j]));
    } else {
      InsertSorts(x, xs[1..], key, le);
      var rest := Insert(x, xs[1..], key, le);
      InsertPermutes(x, xs[1..], key, le);
      forall j | 0 <= j < |rest| ensures le(key(xs[0]), key(rest[j])) {
        assert rest[j] in multiset(rest);
        if rest[j] != x {
          assert rest[j] in xs[1..];
        }
      }
    }
  }

  lemma {:induction false} SortSorts<T, K(!new)>(xs: seq<T>, key: T -> K, le: (K, K) -> bool)
    requires TotalOrder(le)
    ensures Sorted(Sort(xs, key, le), key, le)
  {
    if xs != [] {
      SortSorts(xs[1..], key, le);
      InsertSorts(xs[0], Sort(xs[1..], key, le), key, le);
    }
  }

  /** That equal keys mean equal elements survives any rearrangement. */
  lemma KeysIdentifyPermute<T, K>(xs: seq<T>, ys: seq<T>, key: T -> K)
    requires multiset(xs) == multiset(ys)
    requires KeysIdentify(xs, key)
    ensures KeysIdentify(ys, key)
  {
    forall i, j | 0 <= i < |ys| && 0 <= j < |ys| && key(ys[i]) == key(ys[j]) ensures ys[i] == ys[j] {
      assert ys[i] in multiset(xs) && ys[j] in multiset(xs);
      var a :| 0 <= a < |xs| && xs[a] == ys[i];
      var b :| 0 <= b < |xs| && xs[b] == ys[j];
    }
  }

  lemma OnceIn<T, K>(xs: seq<T>, key: T -> K, a: nat)
    requires a < |xs| && DistinctKeys(xs, key)
    ensures multiset(xs)[xs[a]] == 1
  {
    assert xs == xs[..a] + [xs[a]] + xs[a + 1..];
    assert xs[a] !in xs[..a] && xs[a] !in xs[a + 1..];
  }

  lemma HeadIsLeast<T, K(!new)>(xs: seq<T>, key: T -> K, le: (K, K) -> bool, k: nat)
    requires TotalOrder(le) && Sorted(xs, key, le) && k < |xs|
    ensures le(key(xs[0]), key(xs[k]))
  {
  }

  /** Both arrangements begin with the least key. */
  lemma SameHead<T(!new), K(!new)>(xs: seq<T>, ys: seq<T>, key: T -> K, le: (K, K) -> bool)
    requires TotalOrder(le)
    requires Sorted(xs, key, le) && Sorted(ys, key, le)
    requires KeysIdentify(xs, key)
    requires multiset(xs) == multiset(ys) && xs != [] && ys != []
    ensures xs[0] == ys[0]
  {
    assert xs[0] in multiset(ys) && ys[0] in multiset(xs);
    var a :| 0 <= a < |ys| && ys[a] == xs[0];
    var b :| 0 <= b < |xs| && xs[b] == ys[0];
    HeadIsLeast(xs, key, le, b);
    HeadIsLeast(ys, key, le, a);
    assert key(xs[0]) == key(xs[b]);
  }

  /** Dropping the same element from both ends of an equality of multisets. */
  lemma SameTail<T>(xs: seq<T>, ys: seq<T>)
    requires xs != [] && ys != [] && xs[0] == ys[0] && multiset(xs) == multiset(ys)
    ensures multiset(xs[1..]) == multiset(ys[1..])
  {
    assert xs == [xs[0]] + xs[1..] && ys == [xs[0]] + ys[1..];
    assert multiset(xs[1..]) == multiset(xs) - multiset([xs[0]]);
    assert multiset(ys[1..]) == multiset(ys) - multiset([xs[0]]);
  }

  /** Two sorted arrangements of the same elements are the same sequence. */
  lemma {:induction false} SortedIsUnique<T(!new), K(!new)>(xs: seq<T>, ys: seq<T>, key: T -> K, le: (K, K) -> bool)
    requires TotalOrder(le)
    requires Sorted(xs, key, le) && Sorted(ys, key, le)
    requires KeysIdentify(xs, key)
    requires multiset(xs) == multiset(ys)
    ensures xs == ys
  {
    assert |multiset(xs)| == |multiset(ys)|;
    if xs != [] {
      SameHead(xs, ys, key, le);
      SameTail(xs, ys);
      SortedIsUnique(xs[1..], ys[1..], key, le);
      assert xs == [xs[0]] + xs[1..] && ys == [xs[0]] + ys[1..];
    }
  }

  /** Sorting by identifying keys forgets the input order and nothing else. */
  lemma SortCanonical<T(!new), K(!new)>(xs: seq<T>, ys: seq<T>, key: T -> K, le: (K, K) -> bool)
    requires TotalOrder(le)
    requires KeysIdentify(xs, key)
    ensures Sort(xs, key, le) == Sort(ys, key, le) <==> multiset(xs) == multiset(ys)
  {
    SortPermutes(xs, key, le);
    SortPermutes(ys, key, le);
    SortSorts(xs, key, le);
    SortSorts(ys, key, le);
    KeysIdentifyPermute(xs, Sort(xs, key, le), key);
    if multiset(xs) == multiset(ys) {
      SortedIsUnique(Sort(xs, key, le), Sort(ys, key, le), key, le);
    }
  }

  lemma WithoutAt<T>(xs: seq<T>, k: nat)
    requires k < |xs|
    ensures multiset(xs[..k] + xs[k + 1..]) == multiset(xs) - multiset([xs[k]])
  {
    assert xs == xs[..k] + [xs[k]] + xs[k + 1..];
  }

  /** Taking one common element out of two arrangements leaves two arrangements. */
  lemma RemoveBoth<T>(xs: seq<T>, ys: seq<T>, k: nat)
    requires xs != [] && k < |ys| && ys[k] == xs[|xs| - 1] && multiset(xs) == multiset(ys)
    ensures multiset(xs[..|xs| - 1]) == multiset(ys[..k] + ys[k + 1..])
  {
    WithoutAt(xs, |xs| - 1);
    WithoutAt(ys, k);
    assert xs[..|xs| - 1] + xs[|xs|..] == xs[..|xs| - 1];
  }
}

/** Trimming and case, as the program normalises merchant text; letters are ASCII. */
module Text {

  function LowerChar(c: char): char {
    if 'A' <= c <= 'Z' then (c as int + 32) as char else c
  }

  function UpperChar(c: char): char {
    if 'a' <= c <= 'z' then (c as int - 32) as char else c
  }

  function Lower(s: string): string {
    seq(|s|, i requires 0 <= i < |s| => LowerChar(s[i]))
  }

  function Upper(s: string): string {
    seq(|s|, i requires 0 <= i < |s| => UpperChar(s[i]))
  }

  predicate IsBlank(c: char) {
    c == ' ' || c == '\t' || c == '\n' || c == '\r'
  }

  function Trim(s: string): string {
    if s != [] && IsBlank(s[0]) then Trim(s[1..])
    else if s != [] && IsBlank(s[|s| - 1]) then Trim(s[..|s| - 1])
    else s
  }

  predicate Trimmed(s: string) {
    s == [] || (!IsBlank(s[0]) && !IsBlank(s[|s| - 1]))
  }

  lemma {:induction false} TrimTrims(s: string)
    ensures Trimmed(Trim(s)) && (Trimmed(s) ==> Trim(s) == s)
  {
    if s != [] && IsBlank(s[0]) {
      TrimTrims(s[1..]);
    } else if s != [] && IsBlank(s[|s| - 1]) {
      TrimTrims(s[..|s| - 1]);
    }
  }

  /** Only blanks outside, and none at either end inside. */
  predicate BlanksAround(s: string, from: int, to: int) {
    && 0 <= from <= to <= |s|
    && (forall i :: 0 <= i < |s| && (i < from || to <= i) ==> s[i] in " \t\n\r")
    && (from < to ==> s[from] !in " \t\n\r" && s[to - 1] !in " \t\n\r")
  }

  lemma BlankInFront(s: string, from: int, to: int)
    requires s != [] && IsBlank(s[0]) && BlanksAround(s[1..], from, to)
    ensures BlanksAround(s, from + 1, to + 1) && s[from + 1..to + 1] == s[1..][from..to]
  {
    assert forall i :: 1 <= i < |s| ==> s[i] == s[1..][i - 1];
  }

  lemma BlankBehind(s: string, from: int, to: int)
    requires s != [] && IsBlank(s[|s| - 1]) && BlanksAround(s[..|s| - 1], from, to)
    ensures BlanksAround(s, from, to) && s[from..to] == s[..|s| - 1][from..to]
  {
    assert forall i :: 0 <= i < |s| - 1 ==> s[i] == s[..|s| - 1][i];
  }

  /** Trimming takes blanks off both ends and nothing else. */
  lemma {:induction false} TrimDropsBlanks(s: string) returns (from: int, to: int)
    ensures BlanksAround(s, from, to) && Trim(s) == s[from..to]
  {
    if s != [] && IsBlank(s[0]) {
      from, to := TrimDropsBlanks(s[1..]);
      BlankInFront(s, from, to);
      from, to := from + 1, to + 1;
    } else if s != [] && IsBlank(s[|s| - 1]) {
      from, to := TrimDropsBlanks(s[..|s| - 1]);
      BlankBehind(s, from, to);
    } else {
      from, to := 0, |s|;
    }
  }

  /** The two foldings agree on which texts differ in case only, and lengths never change. */
  lemma FoldingsAgree(s: string, t: string)
    ensures |Upper(s)| == |s| == |Lower(s)|
    ensures Lower(Upper(s)) == Lower(s) && Upper(Lower(s)) == Upper(s)
    ensures Upper(s) == Upper(t) <==> Lower(s) == Lower(t)
    ensures Upper("usd") == "USD" == Upper("Usd") && Lower("USD") == "usd"
  {
    assert Lower(Upper(s)) == Lower(s) && Upper(Lower(s)) == Upper(s);
    assert Lower(Upper(t)) == Lower(t) && Upper(Lower(t)) == Upper(t);
    assert Upper("usd") == "USD" && Upper("Usd") == "USD" && Lower("USD") == "usd";
  }

  /** Normalising a code twice changes nothing more. */
  lemma CodeIsStable(s: string)
    ensures Upper(Trim(Upper(Trim(s)))) == Upper(Trim(s)) && Trim(Trim(s)) == Trim(s)
  {
    TrimTrims(s);
    TrimTrims(Upper(Trim(s)));
    TrimTrims(Trim(s));
    assert Upper(Upper(Trim(s))) == Upper(Trim(s));
  }
}
