/** The two invocations of `define_methods!`: the table of the default build
    and the table of the build with the `openssl` feature, and what each
    build's registry guarantees. */
module Methods {
  import opened Strings
  import opened DefineMethods

  /** The two builds: without and with the `openssl` feature. */
  datatype Build = Default | WithOpenssl

  /** The declaration table of a build, row for row as the source writes it. */
  function Table(b: Build): (t: seq<Entry>)
    ensures |t| == if b == Default then 10 else 16
  {
    match b
    case Default => [
      Entry(Aes128Ctr, "aes_128_ctr", 16, 16, Crypto),
      Entry(Aes192Ctr, "aes_192_ctr", 24, 16, Crypto),
      Entry(Aes256Ctr, "aes_256_ctr", 32, 16, Crypto),
      Entry(Rc4, "rc4", 16, 0, Crypto),
      Entry(Hc128, "hc128", 16, 16, Crypto),
      Entry(Salsa20, "salsa20", 32, 8, Crypto),
      Entry(XSalsa20, "xsalsa20", 32, 24, Crypto),
      Entry(ChaCha20, "chacha20", 32, 8, Crypto),
      Entry(XChaCha20, "xchacha20", 32, 24, Crypto),
      Entry(Sosemanuk, "sosemanuk", 32, 16, Crypto)
    ]
    case WithOpenssl => [
      Entry(Aes128Ctr, "aes_128_ctr", 16, 16, Crypto),
      Entry(Aes192Ctr, "aes_192_ctr", 24, 16, Crypto),
      Entry(Aes256Ctr, "aes_256_ctr", 32, 16, Crypto),
      Entry(Rc4, "rc4", 16, 0, Crypto),
      Entry(Hc128, "hc128", 16, 16, Crypto),
      Entry(Salsa20, "salsa20", 32, 8, Crypto),
      Entry(XSalsa20, "xsalsa20", 32, 24, Crypto),
      Entry(ChaCha20, "chacha20", 32, 8, Crypto),
      Entry(XChaCha20, "xchacha20", 32, 24, Crypto),
      Entry(Sosemanuk, "sosemanuk", 32, 16, Crypto),

      Entry(Aes128Cfb, "aes_128_cfb", 16, 16, Openssl),
      Entry(Aes256Cfb, "aes_256_cfb", 32, 16, Openssl),
      Entry(Aes128Cfb1, "aes_128_cfb1", 16, 16, Openssl),
      Entry(Aes256Cfb1, "aes_256_cfb1", 32, 16, Openssl),
      Entry(Aes128Cfb8, "aes_128_cfb8", 16, 16, Openssl),
      Entry(Aes256Cfb8, "aes_256_cfb8", 32, 16, Openssl)
    ]
  }

  /** The AES CFB modes, the methods only the openssl build adds. */
  predicate IsAesCfb(m: Method) {
    m.Aes128Cfb? || m.Aes256Cfb? || m.Aes128Cfb1? || m.Aes256Cfb1? || m.Aes128Cfb8? || m.Aes256Cfb8?
  }

  /** Every row asks for key material. */
  ghost predicate PositiveKeys(t: seq<Entry>) {
    forall i :: 0 <= i < |t| ==> t[i].keyLen > 0
  }

  /** The position the enum declaration gives each variant: the discriminant
      the derived `Ord` compares. It is the same in both builds, because the
      default table is a prefix of the openssl table. */
  function Discriminant(m: Method): (d: nat)
    ensures d < 16
    ensures d < 10 <==> !IsAesCfb(m)
  {
    match m
    case Aes128Ctr => 0
    case Aes192Ctr => 1
    case Aes256Ctr => 2
    case Rc4 => 3
    case Hc128 => 4
    case Salsa20 => 5
    case XSalsa20 => 6
    case ChaCha20 => 7
    case XChaCha20 => 8
    case Sosemanuk => 9
    case Aes128Cfb => 10
    case Aes256Cfb => 11
    case Aes128Cfb1 => 12
    case Aes256Cfb1 => 13
    case Aes128Cfb8 => 14
    case Aes256Cfb8 => 15
  }

  // ---------------------------------------------------------------------
  // The tables are accepted by the compiler

  /** The default table is the first ten rows of the openssl table. */
  lemma DefaultIsPrefix()
    ensures Table(Default) == Table(WithOpenssl)[..10]
  {
  }

  /** Row `i` of either table declares the variant whose discriminant is `i`. */
  lemma TableInDiscriminantOrder(b: Build)
    ensures forall i :: 0 <= i < |Table(b)| ==> Discriminant(Table(b)[i].variant) == i
  {
  }

  /** No table declares a variant twice, since the discriminants of its rows
      are their distinct positions. */
  lemma DistinctVariantsOf(b: Build)
    ensures DistinctVariants(Table(b))
  {
    TableInDiscriminantOrder(b);
  }

  /** The ten shared rows carry pairwise distinct identifiers. */
  lemma DistinctCryptoNames()
    ensures var t := Table(WithOpenssl); forall i, j :: 0 <= i < j < 10 ==> t[i].name != t[j].name
  {
  }

  /** No shared row carries the identifier of a CFB row. */
  lemma DistinctCryptoOpensslNames()
    ensures var t := Table(WithOpenssl); forall i, j :: 0 <= i < 10 <= j < 16 ==> t[i].name != t[j].name
  {
  }

  /** The six CFB rows carry pairwise distinct identifiers. */
  lemma DistinctOpensslNames()
    ensures var t := Table(WithOpenssl); forall i, j :: 10 <= i < j < 16 ==> t[i].name != t[j].name
  {
  }

  /** Taking a prefix keeps identifiers distinct. */
  lemma DistinctNamesOfPrefix(t: seq<Entry>, n: nat)
    requires DistinctNames(t) && n <= |t|
    ensures DistinctNames(t[..n])
  {
  }

  /** No table carries an identifier twice. */
  lemma DistinctNamesOf(b: Build)
    ensures DistinctNames(Table(b))
  {
    var t := Table(WithOpenssl);
    DistinctCryptoNames();
    DistinctCryptoOpensslNames();
    DistinctOpensslNames();
    assert DistinctNames(t);
    if b == Default {
      DefaultIsPrefix();
      DistinctNamesOfPrefix(t, 10);
    }
  }

  /** The identifiers of the ten rows both tables share. */
  lemma CryptoNamesAreLowerCase()
    ensures IsLowerIdent("aes_128_ctr") && IsLowerIdent("aes_192_ctr") && IsLowerIdent("aes_256_ctr")
    ensures IsLowerIdent("rc4") && IsLowerIdent("hc128") && IsLowerIdent("salsa20")
    ensures IsLowerIdent("xsalsa20") && IsLowerIdent("chacha20") && IsLowerIdent("xchacha20")
    ensures IsLowerIdent("sosemanuk")
  {
  }

  /** The identifiers of the six rows only the openssl table has. */
  lemma OpensslNamesAreLowerCase()
    ensures IsLowerIdent("aes_128_cfb") && IsLowerIdent("aes_256_cfb") && IsLowerIdent("aes_128_cfb1")
    ensures IsLowerIdent("aes_256_cfb1") && IsLowerIdent("aes_128_cfb8") && IsLowerIdent("aes_256_cfb8")
  {
  }

  /** Every identifier of either table is lower case. */
  lemma LowerCaseNamesOf(b: Build)
    ensures LowerCaseNames(Table(b))
  {
    CryptoNamesAreLowerCase();
    OpensslNamesAreLowerCase();
  }

  /** Every row of either table has a positive key length. */
  lemma PositiveKeysOf(b: Build)
    ensures PositiveKeys(Table(b))
  {
  }

  /** Both tables are tables the macro expands: no variant and no identifier
      repeats, and every identifier is a lower-case Rust identifier. Every row
      asks for a key. */
  lemma TableValid(b: Build)
    ensures ValidTable(Table(b)) && LowerCaseNames(Table(b)) && PositiveKeys(Table(b))
  {
    var t := Table(b);
    DistinctVariantsOf(b);
    DistinctNamesOf(b);
    LowerCaseNamesOf(b);
    PositiveKeysOf(b);
    forall i | 0 <= i < |t| ensures IsIdent(t[i].name) {
      LowerIdentIsIdent(t[i].name);
    }
  }

  // ---------------------------------------------------------------------
  // Properties of the two registries

  /** `all()` has ten entries without the openssl feature and sixteen with it. */
  lemma AllLength()
    ensures |All(Table(Default))| == 10 && |All(Table(WithOpenssl))| == 16
  {
  }

  /** Distinct variants have distinct discriminants. */
  lemma DiscriminantInjective(m1: Method, m2: Method)
    requires Discriminant(m1) == Discriminant(m2)
    ensures m1 == m2
  {
  }

  /** `all()` lists every variant the build has: all sixteen with the openssl
      feature, and without it exactly those that are not AES CFB modes. */
  lemma AllComplete(m: Method)
    ensures Declared(Table(WithOpenssl), m)
    ensures Declared(Table(Default), m) <==> !IsAesCfb(m)
  {
    TableInDiscriminantOrder(WithOpenssl);
    TableInDiscriminantOrder(Default);
    var d := Discriminant(m);
    var e := Table(WithOpenssl)[d];
    assert e.variant == m by {
      DiscriminantInjective(e.variant, m);
    }
    assert All(Table(WithOpenssl))[d] == m;
    if !IsAesCfb(m) {
      DefaultIsPrefix();
      assert All(Table(Default))[d] == m;
    }
  }

  /** The derived `Ord` agrees with the discriminant. */
  lemma RankIsDiscriminant(b: Build, m: Method)
    requires Declared(Table(b), m)
    ensures Rank(Table(b), m) == Discriminant(m)
  {
    TableInDiscriminantOrder(b);
  }

  /** Every method of either build has a positive key length. */
  lemma KeyLengthPositive(b: Build, m: Method)
    requires Declared(Table(b), m)
    ensures Info(Table(b), m).0 > 0
  {
    PositiveKeysOf(b);
  }

  /** The library column of either table: `Crypto` in the first ten rows,
      `Openssl` after them. */
  lemma LibraryColumn(b: Build)
    ensures forall i :: 0 <= i < |Table(b)| ==> Table(b)[i].lib == (if i < 10 then Crypto else Openssl)
  {
  }

  /** The library column: the ten stream and CTR methods use the built-in
      crypto library, the six AES CFB methods use OpenSSL. */
  lemma LibraryPartition(b: Build, m: Method)
    requires Declared(Table(b), m)
    ensures BelongingLib(Table(b), m) == (if IsAesCfb(m) then Openssl else Crypto)
  {
    LibraryColumn(b);
    RankIsDiscriminant(b, m);
  }

  /** Without the openssl feature every method is backed by the crypto library. */
  lemma DefaultIsCryptoOnly(m: Method)
    requires Declared(Table(Default), m)
    ensures BelongingLib(Table(Default), m) == Crypto
  {
    AllComplete(m);
    LibraryPartition(Default, m);
  }

  /** A default variant is declared by the same row, at the same position, in
      the openssl table. */
  lemma SameRowInOpenssl(m: Method)
    requires Declared(Table(Default), m)
    ensures Declared(Table(WithOpenssl), m)
    ensures Rank(Table(WithOpenssl), m) == Rank(Table(Default), m)
    ensures Row(Table(WithOpenssl), m) == Row(Table(Default), m)
  {
    AllComplete(m);
    RankIsDiscriminant(Default, m);
    RankIsDiscriminant(WithOpenssl, m);
    DefaultIsPrefix();
  }

  /** The openssl build extends the default one: every default variant exists
      there with the same position, metadata and spelling. */
  lemma OpensslExtendsDefault(m: Method)
    requires Declared(Table(Default), m)
    ensures Declared(Table(WithOpenssl), m)
    ensures Rank(Table(WithOpenssl), m) == Rank(Table(Default), m)
    ensures Info(Table(WithOpenssl), m) == Info(Table(Default), m)
    ensures BelongingLib(Table(WithOpenssl), m) == BelongingLib(Table(Default), m)
    ensures Name(Table(WithOpenssl), m) == Name(Table(Default), m)
    ensures Fmt(Table(WithOpenssl), m) == Fmt(Table(Default), m)
  {
    SameRowInOpenssl(m);
  }

  /** Every string the default build parses, the openssl build parses to the
      same variant. */
  lemma OpensslParsesDefaultNames(s: string)
    ensures FromStr(Table(Default), s).Ok? ==> FromStr(Table(WithOpenssl), s) == FromStr(Table(Default), s)
  {
    var r := FromStr(Table(Default), s);
    if r.Ok? {
      TableValid(Default);
      TableValid(WithOpenssl);
      SameRowInOpenssl(r.value);
      FromStrExact(Table(WithOpenssl), s, r.value);
    }
  }

  /** `all()` of either build lists no method twice. */
  lemma BuildAllDistinct(b: Build)
    ensures forall i, j :: 0 <= i < j < |All(Table(b))| ==> All(Table(b))[i] != All(Table(b))[j]
  {
    DistinctVariantsOf(b);
    AllDistinct(Table(b));
  }

  /** Every method of either build survives formatting and parsing. */
  lemma BuildRoundTrip(b: Build, m: Method)
    requires Declared(Table(b), m)
    ensures FromStr(Table(b), Fmt(Table(b), m)) == Ok(m)
  {
    TableValid(b);
    RoundTrip(Table(b), m);
  }

  /** Distinct methods of either build format to distinct strings. */
  lemma BuildFmtInjective(b: Build, m1: Method, m2: Method)
    requires Declared(Table(b), m1) && Declared(Table(b), m2)
    requires Fmt(Table(b), m1) == Fmt(Table(b), m2)
    ensures m1 == m2
  {
    TableValid(b);
    FmtInjective(Table(b), m1, m2);
  }

  /** No identifier of either table is longer than twelve characters. */
  lemma NameLengths(b: Build)
    ensures forall i :: 0 <= i < |Table(b)| ==> |Table(b)[i].name| <= 12
  {
  }

  /** Matching is case-sensitive: since every identifier is lower case, no
      string holding an upper-case letter names a method. */
  lemma CaseSensitive(b: Build, s: string, k: nat)
    requires k < |s| && 'A' <= s[k] <= 'Z'
    ensures FromStr(Table(b), s) == Err
  {
    TableValid(b);
    UpperCaseRejected(Table(b), s, k);
  }

  /** No identifier is longer than twelve characters, so longer strings name
      no method. */
  lemma TooLongRejected(b: Build, s: string)
    requires |s| > 12
    ensures FromStr(Table(b), s) == Err
  {
    DistinctVariantsOf(b);
    NameLengths(b);
    LongStringRejected(Table(b), s, 12);
  }

  // ---------------------------------------------------------------------
  // Concrete cases

  /** `info()` of aes_128_ctr, row 0 of either table. */
  lemma InfoAes128Ctr(b: Build)
    ensures Declared(Table(b), Aes128Ctr) && Info(Table(b), Aes128Ctr) == (16, 16)
  {
    DistinctVariantsOf(b);
    InfoAt(Table(b), 0);
  }

  /** `info()` of rc4, row 3 of either table. */
  lemma InfoRc4(b: Build)
    ensures Declared(Table(b), Rc4) && Info(Table(b), Rc4) == (16, 0)
  {
    DistinctVariantsOf(b);
    InfoAt(Table(b), 3);
  }

  /** `info()` of xchacha20, row 8 of either table. */
  lemma InfoXChaCha20(b: Build)
    ensures Declared(Table(b), XChaCha20) && Info(Table(b), XChaCha20) == (32, 24)
  {
    DistinctVariantsOf(b);
    InfoAt(Table(b), 8);
  }

  /** `info()` of salsa20, row 5 of either table. */
  lemma InfoSalsa20(b: Build)
    ensures Declared(Table(b), Salsa20) && Info(Table(b), Salsa20) == (32, 8)
  {
    DistinctVariantsOf(b);
    InfoAt(Table(b), 5);
  }

  /** Some rows of the table, read through `info()`. */
  lemma InfoExamples(b: Build)
    ensures Declared(Table(b), Aes128Ctr) && Info(Table(b), Aes128Ctr) == (16, 16)
    ensures Declared(Table(b), Rc4) && Info(Table(b), Rc4) == (16, 0)
    ensures Declared(Table(b), XChaCha20) && Info(Table(b), XChaCha20) == (32, 24)
    ensures Declared(Table(b), Salsa20) && Info(Table(b), Salsa20) == (32, 8)
  {
    InfoAes128Ctr(b);
    InfoRc4(b);
    InfoXChaCha20(b);
    InfoSalsa20(b);
  }

  /** An identifier without `_` formats as itself. */
  lemma XChaCha20Spelling()
    ensures Replace("xchacha20", '_', '-') == "xchacha20"
  {
    ReplaceSpelled("xchacha20", '_', '-', "xchacha20");
  }

  /** The parser's normalisation of `aes-128-ctr`. */
  lemma NormaliseAes128Ctr()
    ensures Replace("aes-128-ctr", '-', '_') == "aes_128_ctr"
  {
    ReplaceSpelled("aes-128-ctr", '-', '_', "aes_128_ctr");
  }

  /** The parser's normalisation of `aes-256-ctr`. */
  lemma NormaliseAes256Ctr()
    ensures Replace("aes-256-ctr", '-', '_') == "aes_256_ctr"
  {
    ReplaceSpelled("aes-256-ctr", '-', '_', "aes_256_ctr");
  }

  /** The parser's normalisation of `aes-128-cfb`. */
  lemma NormaliseAes128Cfb()
    ensures Replace("aes-128-cfb", '-', '_') == "aes_128_cfb"
  {
    ReplaceSpelled("aes-128-cfb", '-', '_', "aes_128_cfb");
  }

  /** The identifier of row `i` parses to its variant. */
  lemma FromStrAt(b: Build, i: nat, n: string)
    requires i < |Table(b)| && Table(b)[i].name == n
    ensures FromStr(Table(b), n) == Ok(Table(b)[i].variant)
  {
    TableValid(b);
    NameAt(Table(b), i);
  }

  /** The hyphenated spelling of aes_128_ctr parses to it. */
  lemma FromStrAes128Ctr(b: Build)
    ensures FromStr(Table(b), "aes-128-ctr") == Ok(Aes128Ctr)
  {
    FromStrAt(b, 0, "aes_128_ctr");
    NormaliseAes128Ctr();
    SeparatorEquivalence(Table(b), "aes-128-ctr");
  }

  /** Both spellings of aes_256_ctr parse to it. */
  lemma FromStrAes256Ctr(b: Build)
    ensures FromStr(Table(b), "aes_256_ctr") == FromStr(Table(b), "aes-256-ctr") == Ok(Aes256Ctr)
  {
    FromStrAt(b, 2, "aes_256_ctr");
    NormaliseAes256Ctr();
    SeparatorEquivalence(Table(b), "aes-256-ctr");
  }

  /** `rc4`, which has no separator, parses to rc4. */
  lemma FromStrRc4(b: Build)
    ensures FromStr(Table(b), "rc4") == Ok(Rc4)
  {
    FromStrAt(b, 3, "rc4");
  }

  /** `xchacha20` parses to xchacha20. */
  lemma FromStrXChaCha20(b: Build)
    ensures FromStr(Table(b), "xchacha20") == Ok(XChaCha20)
  {
    FromStrAt(b, 8, "xchacha20");
  }

  /** xchacha20 formats as `xchacha20`. */
  lemma FmtXChaCha20(b: Build)
    ensures Declared(Table(b), XChaCha20) && Fmt(Table(b), XChaCha20) == "xchacha20"
  {
    NameXChaCha20(b);
    XChaCha20Spelling();
  }

  /** The identifier of xchacha20, row 8 of either table. */
  lemma NameXChaCha20(b: Build)
    ensures Declared(Table(b), XChaCha20) && Name(Table(b), XChaCha20) == "xchacha20"
  {
    DistinctVariantsOf(b);
    RowAt(Table(b), 8);
  }

  /** The formatter rewrites aes_128_ctr's underscores: `aes-128-ctr`. */
  lemma FmtAes128Ctr(b: Build)
    ensures Declared(Table(b), Aes128Ctr) && Fmt(Table(b), Aes128Ctr) == "aes-128-ctr"
  {
    DistinctVariantsOf(b);
    RowAt(Table(b), 0);
    FmtSpellingAes128Ctr();
  }

  /** `aes_128_ctr` with its underscores written as hyphens. */
  lemma FmtSpellingAes128Ctr()
    ensures Replace("aes_128_ctr", '_', '-') == "aes-128-ctr"
  {
    ReplaceSpelled("aes_128_ctr", '_', '-', "aes-128-ctr");
  }

  /** Parsing and formatting the names of some methods, in either spelling. */
  lemma FromStrExamples(b: Build)
    ensures FromStr(Table(b), "aes-128-ctr") == Ok(Aes128Ctr)
    ensures FromStr(Table(b), "rc4") == Ok(Rc4)
    ensures FromStr(Table(b), "aes_256_ctr") == FromStr(Table(b), "aes-256-ctr") == Ok(Aes256Ctr)
    ensures Declared(Table(b), XChaCha20) && Fmt(Table(b), XChaCha20) == "xchacha20"
    ensures FromStr(Table(b), "xchacha20") == Ok(XChaCha20)
    ensures Declared(Table(b), Aes128Ctr) && Fmt(Table(b), Aes128Ctr) == "aes-128-ctr"
  {
    FromStrAes128Ctr(b);
    FromStrRc4(b);
    FromStrAes256Ctr(b);
    FromStrXChaCha20(b);
    FmtXChaCha20(b);
    FmtAes128Ctr(b);
  }

  /** Upper-case spellings and unknown names are rejected. */
  lemma RejectionExamples(b: Build)
    ensures FromStr(Table(b), "AES-128-CTR") == Err
    ensures FromStr(Table(b), "not-a-real-cipher") == Err
  {
    CaseSensitive(b, "AES-128-CTR", 0);
    TooLongRejected(b, "not-a-real-cipher");
  }

  /** In the openssl build, `aes-128-cfb` parses to aes_128_cfb, row 10. */
  lemma FromStrAes128Cfb()
    ensures FromStr(Table(WithOpenssl), "aes-128-cfb") == Ok(Aes128Cfb)
  {
    FromStrAt(WithOpenssl, 10, "aes_128_cfb");
    NormaliseAes128Cfb();
    SeparatorEquivalence(Table(WithOpenssl), "aes-128-cfb");
  }

  /** aes_128_cfb is OpenSSL-backed with a 16-byte key and a 16-byte IV. */
  lemma InfoAes128Cfb()
    ensures Declared(Table(WithOpenssl), Aes128Cfb)
    ensures BelongingLib(Table(WithOpenssl), Aes128Cfb) == Openssl
    ensures Info(Table(WithOpenssl), Aes128Cfb) == (16, 16)
  {
    DistinctVariantsOf(WithOpenssl);
    InfoAt(Table(WithOpenssl), 10);
  }

  /** Without the openssl feature `aes-128-cfb` names no method. */
  lemma CfbNotInDefault()
    ensures FromStr(Table(Default), "aes-128-cfb") == Err
  {
    var r := FromStr(Table(Default), "aes-128-cfb");
    if r.Ok? {
      OpensslParsesDefaultNames("aes-128-cfb");
      FromStrAes128Cfb();
      TableValid(Default);
      AllComplete(Aes128Cfb);
      assert false;
    }
  }

  /** `aes-128-cfb` names a method only in the openssl build. */
  lemma CfbNeedsOpenssl()
    ensures FromStr(Table(Default), "aes-128-cfb") == Err
    ensures FromStr(Table(WithOpenssl), "aes-128-cfb") == Ok(Aes128Cfb)
    ensures Declared(Table(WithOpenssl), Aes128Cfb)
    ensures BelongingLib(Table(WithOpenssl), Aes128Cfb) == Openssl
    ensures Info(Table(WithOpenssl), Aes128Cfb) == (16, 16)
  {
    CfbNotInDefault();
    FromStrAes128Cfb();
    InfoAes128Cfb();
  }
}
