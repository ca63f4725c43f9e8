/** What one expansion of the `define_methods!` macro generates, for any table
    of rows `name => (key_len, iv_len, lib)` the Rust compiler accepts: the
    method list, the metadata accessors, the parser and the formatter, all read
    from that one table. */
module DefineMethods {
  import opened Strings

  /** The library that implements a method. */
  datatype BelongLib = Crypto | Openssl

  /** Every variant that some table of the registry declares. Which of them a
      given expansion's `Method` enum has is what `Declared` says. */
  datatype Method =
    | Aes128Ctr | Aes192Ctr | Aes256Ctr | Rc4 | Hc128
    | Salsa20 | XSalsa20 | ChaCha20 | XChaCha20 | Sosemanuk
    | Aes128Cfb | Aes256Cfb | Aes128Cfb1 | Aes256Cfb1 | Aes128Cfb8 | Aes256Cfb8

  /** One row of the macro's table: the variant, its identifier as written, its
      key and IV lengths in bytes, and its library. */
  datatype Entry = Entry(variant: Method, name: string, keyLen: nat, ivLen: nat, lib: BelongLib)

  /** The parser's result; its error carries no payload. */
  datatype Result<T> = Ok(value: T) | Err

  /** A character of an ASCII Rust identifier. */
  predicate IsIdentChar(c: char) {
    'a' <= c <= 'z' || 'A' <= c <= 'Z' || '0' <= c <= '9' || c == '_'
  }

  /** A nonempty identifier: what `$method:tt` must be for the enum to compile. */
  predicate IsIdent(s: string) {
    |s| > 0 && forall k :: 0 <= k < |s| ==> IsIdentChar(s[k])
  }

  /** No two rows declare the same variant. */
  ghost predicate DistinctVariants(t: seq<Entry>) {
    forall i, j :: 0 <= i < j < |t| ==> t[i].variant != t[j].variant
  }

  /** No two rows carry the same identifier. */
  ghost predicate DistinctNames(t: seq<Entry>) {
    forall i, j :: 0 <= i < j < |t| ==> t[i].name != t[j].name
  }

  /** A table the macro expands without a compile error: each row's name is an
      identifier, and since it names an enum variant, no variant and no name
      occurs twice. */
  ghost predicate ValidTable(t: seq<Entry>) {
    && DistinctVariants(t)
    && DistinctNames(t)
    && forall i :: 0 <= i < |t| ==> IsIdent(t[i].name)
  }

  // ---------------------------------------------------------------------
  // The generated items

  /** `Method::all()`: every variant of the table, in declaration order. */
  function All(t: seq<Entry>): (r: seq<Method>)
    ensures |r| == |t| && forall i :: 0 <= i < |t| ==> r[i] == t[i].variant
  {
    seq(|t|, i requires 0 <= i < |t| => t[i].variant)
  }

  /** `m` is a variant of the generated `Method` enum. */
  predicate Declared(t: seq<Entry>, m: Method): (d: bool)
    ensures d <==> exists i :: 0 <= i < |t| && t[i].variant == m
  {
    m in All(t)
  }

  /** The position of the first row of `t` that declares `m`. */
  function IndexOf(t: seq<Entry>, m: Method): (i: nat)
    requires exists k :: 0 <= k < |t| && t[k].variant == m
    ensures i < |t| && t[i].variant == m
    ensures forall k :: 0 <= k < i ==> t[k].variant != m
  {
    if t[0].variant == m then 0
    else
      assert exists k :: 0 <= k < |t[1..]| && t[1..][k].variant == m by {
        var k :| 0 <= k < |t| && t[k].variant == m;
        assert t[1..][k - 1].variant == m;
      }
      IndexOf(t[1..], m) + 1
  }

  /** The derived `Ord`: a variant's position in the declaration order. */
  function Rank(t: seq<Entry>, m: Method): (r: nat)
    requires Declared(t, m)
    ensures r < |All(t)| && All(t)[r] == m
  {
    IndexOf(t, m)
  }

  /** The row that declares `m`. */
  function Row(t: seq<Entry>, m: Method): (e: Entry)
    requires Declared(t, m)
    ensures e in t && e.variant == m
  {
    t[Rank(t, m)]
  }

  /** `stringify!($method)`: the variant's identifier. */
  function Name(t: seq<Entry>, m: Method): (n: string)
    requires Declared(t, m)
    ensures ValidTable(t) ==> IsIdent(n)
  {
    Row(t, m).name
  }

  /** `Method::info()`: the key and IV lengths of `m`, as its row declares them. */
  function Info(t: seq<Entry>, m: Method): (r: (nat, nat))
    requires Declared(t, m)
    ensures DistinctVariants(t) ==> forall i :: 0 <= i < |t| && t[i].variant == m ==> r == (t[i].keyLen, t[i].ivLen)
  {
    (Row(t, m).keyLen, Row(t, m).ivLen)
  }

  /** `Method::belong_lib()`: the library of `m`, as its row declares it. */
  function BelongingLib(t: seq<Entry>, m: Method): (lib: BelongLib)
    requires Declared(t, m)
    ensures DistinctVariants(t) ==> forall i :: 0 <= i < |t| && t[i].variant == m ==> lib == t[i].lib
  {
    Row(t, m).lib
  }

  /** The first row of `t` named exactly `n`, as a string `match` tries its arms
      in order. */
  function Lookup(t: seq<Entry>, n: string): (r: Result<Method>)
    ensures r.Ok? ==> exists i ::
      && 0 <= i < |t| && t[i].name == n && t[i].variant == r.value
      && forall k :: 0 <= k < i ==> t[k].name != n
    ensures r.Err? <==> forall i :: 0 <= i < |t| ==> t[i].name != n
  {
    if t == [] then Err
    else if t[0].name == n then Ok(t[0].variant)
    else
      assert forall i :: 1 <= i < |t| ==> t[i] == t[1..][i - 1];
      Lookup(t[1..], n)
  }

  /** `<Method as FromStr>::from_str`: hyphens become underscores, and the
      result must then be exactly one of the identifiers. */
  function FromStr(t: seq<Entry>, s: string): (r: Result<Method>)
    ensures DistinctVariants(t) && r.Ok? ==>
      Declared(t, r.value) && Name(t, r.value) == Replace(s, '-', '_')
    ensures DistinctVariants(t) ==>
      (r.Err? <==> forall m :: Declared(t, m) ==> Name(t, m) != Replace(s, '-', '_'))
  {
    LookupFindsName(t, Replace(s, '-', '_'));
    Lookup(t, Replace(s, '-', '_'))
  }

  /** Without repeated variants, the row `Lookup` stops at is the row of the
      variant it returns. */
  lemma LookupFindsName(t: seq<Entry>, n: string)
    ensures DistinctVariants(t) && Lookup(t, n).Ok? ==>
      Declared(t, Lookup(t, n).value) && Name(t, Lookup(t, n).value) == n
  {
    if DistinctVariants(t) && Lookup(t, n).Ok? {
      var i :| 0 <= i < |t| && t[i].name == n && t[i].variant == Lookup(t, n).value;
      assert All(t)[i] == t[i].variant;
    }
  }

  /** `<Method as Display>::fmt`: the identifier with its underscores written
      as hyphens. */
  function Fmt(t: seq<Entry>, m: Method): (r: string)
    requires Declared(t, m)
    ensures |r| == |Name(t, m)| && '_' !in r
  {
    Replace(Name(t, m), '_', '-')
  }

  // ---------------------------------------------------------------------
  // What every expansion guarantees

  /** An identifier contains no hyphen. */
  lemma IdentHasNoHyphen(s: string)
    requires IsIdent(s)
    ensures '-' !in s
  {
  }

  /** Row `i` is the first row to declare its variant. */
  lemma IndexOfDistinct(t: seq<Entry>, i: nat)
    requires DistinctVariants(t) && i < |t|
    ensures IndexOf(t, t[i].variant) == i
  {
  }

  /** The row that declares the variant of row `i` is row `i`. */
  lemma RowAt(t: seq<Entry>, i: nat)
    requires DistinctVariants(t) && i < |t|
    ensures Declared(t, t[i].variant) && Row(t, t[i].variant) == t[i]
  {
    assert All(t)[i] == t[i].variant;
    IndexOfDistinct(t, i);
  }

  /** `all()` lists no variant twice. */
  lemma AllDistinct(t: seq<Entry>)
    requires DistinctVariants(t)
    ensures forall i, j :: 0 <= i < j < |All(t)| ==> All(t)[i] != All(t)[j]
  {
  }

  /** `all()` is in declaration order: its `i`-th entry has rank `i`, so it is
      strictly increasing under the derived `Ord`. */
  lemma AllInDeclarationOrder(t: seq<Entry>)
    requires DistinctVariants(t)
    ensures forall i :: 0 <= i < |All(t)| ==> Declared(t, All(t)[i]) && Rank(t, All(t)[i]) == i
    ensures forall i, j :: 0 <= i < j < |All(t)| ==> Rank(t, All(t)[i]) < Rank(t, All(t)[j])
  {
    forall i | 0 <= i < |All(t)| ensures Declared(t, All(t)[i]) && Rank(t, All(t)[i]) == i {
      RowAt(t, i);
    }
  }

  /** Two declared variants with the same identifier are the same variant. */
  lemma NameInjective(t: seq<Entry>, m1: Method, m2: Method)
    requires ValidTable(t) && Declared(t, m1) && Declared(t, m2)
    requires Name(t, m1) == Name(t, m2)
    ensures m1 == m2
  {
    assert t[Rank(t, m1)].name == t[Rank(t, m2)].name;
  }

  /** Parsing succeeds exactly on the strings whose hyphen-normalised form is
      a declared identifier, and then yields the variant of that identifier. */
  lemma FromStrExact(t: seq<Entry>, s: string, m: Method)
    requires ValidTable(t)
    ensures FromStr(t, s) == Ok(m) <==> Declared(t, m) && Name(t, m) == Replace(s, '-', '_')
  {
    var r := FromStr(t, s);
    if Declared(t, m) && Name(t, m) == Replace(s, '-', '_') {
      NameInjective(t, r.value, m);
    }
  }

  /** Every identifier, written with underscores, parses to its variant. */
  lemma FromStrName(t: seq<Entry>, m: Method)
    requires ValidTable(t) && Declared(t, m)
    ensures FromStr(t, Name(t, m)) == Ok(m)
  {
    IdentHasNoHyphen(Name(t, m));
    ReplaceAbsent(Name(t, m), '-', '_');
    FromStrExact(t, Name(t, m), m);
  }

  /** Formatting and then parsing gives the variant back. */
  lemma RoundTrip(t: seq<Entry>, m: Method)
    requires ValidTable(t) && Declared(t, m)
    ensures Replace(Fmt(t, m), '-', '_') == Name(t, m)
    ensures FromStr(t, Fmt(t, m)) == Ok(m)
  {
    IdentHasNoHyphen(Name(t, m));
    ReplaceUndone(Name(t, m), '_', '-');
    FromStrExact(t, Fmt(t, m), m);
  }

  /** Distinct variants format to distinct strings. */
  lemma FmtInjective(t: seq<Entry>, m1: Method, m2: Method)
    requires ValidTable(t) && Declared(t, m1) && Declared(t, m2)
    requires Fmt(t, m1) == Fmt(t, m2)
    ensures m1 == m2
  {
    RoundTrip(t, m1);
    RoundTrip(t, m2);
  }

  /** Hyphens and underscores are interchangeable in the parser's input. */
  lemma SeparatorEquivalence(t: seq<Entry>, s: string)
    ensures FromStr(t, s) == FromStr(t, Replace(s, '-', '_'))
  {
    ReplaceIdempotent(s, '-', '_');
  }

  /** A character of a lower-case identifier. */
  predicate IsLowerIdentChar(c: char) {
    'a' <= c <= 'z' || '0' <= c <= '9' || c == '_'
  }

  /** An identifier written in lower case. */
  predicate IsLowerIdent(s: string) {
    |s| > 0 && forall k :: 0 <= k < |s| ==> IsLowerIdentChar(s[k])
  }

  /** Every identifier of the table is written in lower case. */
  ghost predicate LowerCaseNames(t: seq<Entry>) {
    forall i :: 0 <= i < |t| ==> IsLowerIdent(t[i].name)
  }

  /** A lower-case identifier is an identifier. */
  lemma LowerIdentIsIdent(s: string)
    requires IsLowerIdent(s)
    ensures IsIdent(s)
  {
  }

  /** Matching is case-sensitive: when every identifier is lower case, no
      string holding an upper-case letter parses. */
  lemma UpperCaseRejected(t: seq<Entry>, s: string, k: nat)
    requires DistinctVariants(t) && LowerCaseNames(t)
    requires k < |s| && 'A' <= s[k] <= 'Z'
    ensures FromStr(t, s) == Err
  {
    var n := Replace(s, '-', '_');
    ReplaceAt(s, '-', '_', k);
    assert !IsLowerIdentChar(n[k]);
    forall m | Declared(t, m) ensures Name(t, m) != n {
      var i := Rank(t, m);
      assert IsLowerIdent(t[i].name);
      if |t[i].name| == |n| {
        assert IsLowerIdentChar(t[i].name[k]);
      }
    }
  }

  /** A string longer than every identifier is rejected. */
  lemma LongStringRejected(t: seq<Entry>, s: string, bound: nat)
    requires DistinctVariants(t)
    requires forall i :: 0 <= i < |t| ==> |t[i].name| <= bound
    requires |s| > bound
    ensures FromStr(t, s) == Err
  {
    forall m | Declared(t, m) ensures Name(t, m) != Replace(s, '-', '_') {
      assert |Name(t, m)| <= bound;
    }
  }

  /** `info()` of the variant of row `i` is that row's pair. */
  lemma InfoAt(t: seq<Entry>, i: nat)
    requires DistinctVariants(t) && i < |t|
    ensures Declared(t, t[i].variant) && Info(t, t[i].variant) == (t[i].keyLen, t[i].ivLen)
  {
    RowAt(t, i);
  }

  /** The identifier of row `i` is the name of its variant, and parses to it. */
  lemma NameAt(t: seq<Entry>, i: nat)
    requires ValidTable(t) && i < |t|
    ensures Declared(t, t[i].variant) && Name(t, t[i].variant) == t[i].name
    ensures FromStr(t, t[i].name) == Ok(t[i].variant)
  {
    RowAt(t, i);
    FromStrName(t, t[i].variant);
  }
}
