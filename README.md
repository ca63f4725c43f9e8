# Cipher method registry

A Dafny model of the cipher method registry of shadowsocks-rust
(`src/crypto/methods.rs`). In the source, one macro, `define_methods!`, takes a
table of rows `name => (key_len, iv_len, lib)`. From that table it generates the
`Method` enum and its accessors:

- `info()` gives the key and IV lengths in bytes;
- `belong_lib()` gives the backing library (`Crypto` or `Openssl`);
- `all()` lists every variant in declaration order;
- a `FromStr` parser rewrites `-` to `_`, then matches the identifier exactly and case-sensitively;
- a `Display` formatter writes the identifier with `_` rewritten to `-`.

Two tables exist. The default build has ten methods, all implemented by the
built-in crypto library. The `openssl` feature adds six AES CFB methods
implemented by OpenSSL.

The model follows the same single-source design, in two modules.

`DefineMethods` is the macro. Its functions take the table `t` as a parameter,
so they describe any expansion and not just these two:

- `All` is the table's first column;
- `Name`, `Info` and `BelongingLib` read the row that declares a variant;
- `FromStr` looks the normalised string up among the identifiers;
- `Fmt` rewrites the identifier.

`ValidTable(t)` states what the Rust compiler demands of a table before the
expansion compiles: each identifier is an identifier, so it contains no `-`,
and it names an enum variant, so no variant and no identifier repeats. The
general guarantees (the round trip, exact parsing, separator equivalence,
declaration order) are proved once there, for every valid table.

`Methods` holds the two invocations. `Table(b)` is the declaration table of
build `b` (`Default` or `WithOpenssl`), row for row as the source writes it.
`TableValid` shows that both tables are valid, that their identifiers are lower
case and that every key length is positive. The facts that belong to these
tables are proved there: their sizes, which library backs which method, how
the openssl build extends the default one, and concrete rows.

`Strings.Replace` models `str::replace` with a one-character pattern and a
one-character replacement, which is what both uses in the source are.

One `Method` datatype carries all sixteen variants. `Declared(t, m)` says that
variant `m` exists in the enum generated from `t`. The accessors that take a
`Method` require it, because in the default build the six CFB variants are not
values of the type at all. The derived `Ord` compares declaration positions.
`Rank` reads that position from the table, and `Methods.Discriminant` gives it
independently, by cases on the variant.

The parse error carries no payload: the source declares `type Err = ();`
(src/crypto/methods.rs:47), and `Result.Err` has none either.

## Model

| member | source | states |
|---|---|---|
| `Strings.Replace` | src/crypto/methods.rs:49 | The result has the input's length and contains no `from` character once `from` differs from `to` |
| `Strings.ReplaceAt` | src/crypto/methods.rs:49 | Replacement works position by position: position `i` holds `to` where the input held `from`, and the input character elsewhere |
| `Strings.ReplaceIdempotent` | src/crypto/methods.rs:49 | Normalising an already normalised string changes nothing |
| `Strings.ReplaceUndone` | src/crypto/methods.rs:64 | Rewriting `_` to `-` and then `-` back to `_` restores every string that had no `-` |
| `DefineMethods.IdentHasNoHyphen` | src/crypto/methods.rs:11-16 | An identifier, which is what every `$method` must be, contains no `-` |
| `DefineMethods.All` | src/crypto/methods.rs:37-43 | `all()` lists the variant of every row, in row order, and nothing else |
| `DefineMethods.Declared` | src/crypto/methods.rs:14-18 | A variant belongs to the generated enum exactly when some row of the table declares it |
| `DefineMethods.Rank` | src/crypto/methods.rs:13-18 | The derived order's rank of a declared variant is the index at which `all()` lists it |
| `DefineMethods.Row` | src/crypto/methods.rs:14-18 | Every declared variant has a row of the table that declares it |
| `DefineMethods.Name` | src/crypto/methods.rs:52 | In a valid table, the identifier of every declared variant is a nonempty identifier |
| `DefineMethods.Info` | src/crypto/methods.rs:21-27 | `info()` is defined for every declared variant; with distinct variants it is the pair of every row that declares the variant |
| `DefineMethods.BelongingLib` | src/crypto/methods.rs:29-35 | `belong_lib()` is defined for every declared variant; with distinct variants it is the library of every row that declares the variant |
| `DefineMethods.RowAt` | src/crypto/methods.rs:14-35 | With distinct variants, the row found for the variant of row `i` is row `i` itself |
| `DefineMethods.InfoAt` | src/crypto/methods.rs:21-27 | With distinct variants, `info()` of the variant of row `i` is row `i`'s key and IV lengths |
| `DefineMethods.AllDistinct` | src/crypto/methods.rs:37-43 | `all()` lists no variant twice |
| `DefineMethods.AllInDeclarationOrder` | src/crypto/methods.rs:37-43 | Entry `i` of `all()` has rank `i`, so `all()` is strictly increasing under the derived order |
| `DefineMethods.Lookup` | src/crypto/methods.rs:50-55 | A string match over the rows: it succeeds only with the variant of the first row carrying that exact identifier, and fails exactly when no row carries it |
| `DefineMethods.LookupFindsName` | src/crypto/methods.rs:50-53 | With distinct variants, the variant a match arm returns is declared and its identifier is the matched string |
| `DefineMethods.FromStr` | src/crypto/methods.rs:48-56 | With distinct variants, a successful parse yields a declared variant whose identifier equals the input with `-` rewritten to `_`, and the parse fails exactly when no declared variant has that identifier |
| `DefineMethods.NameInjective` | src/crypto/methods.rs:50-54 | In a valid table, two declared variants with the same identifier are the same variant |
| `DefineMethods.FromStrExact` | src/crypto/methods.rs:48-56 | Both directions: in a valid table, `from_str(s)` is `Ok(m)` if and only if `m` is declared and its identifier is `s` with hyphens rewritten to underscores |
| `DefineMethods.FromStrName` | src/crypto/methods.rs:50-53 | Every declared identifier, written with underscores, parses to its own variant |
| `DefineMethods.NameAt` | src/crypto/methods.rs:50-53 | The identifier of row `i` is its variant's name and parses to that variant |
| `DefineMethods.SeparatorEquivalence` | src/crypto/methods.rs:49 | `from_str(s)` equals `from_str(s.replace("-", "_"))` for every string `s` and every table |
| `DefineMethods.UpperCaseRejected` | src/crypto/methods.rs:50-54 | Matching is case-sensitive: when every identifier is lower case, any string containing an upper-case ASCII letter is rejected |
| `DefineMethods.LongStringRejected` | src/crypto/methods.rs:50-54 | A string longer than every identifier is rejected |
| `DefineMethods.Fmt` | src/crypto/methods.rs:59-67 | The formatted name has the identifier's length and contains no `_` |
| `DefineMethods.RoundTrip` | src/crypto/methods.rs:48-67 | In a valid table, normalising a declared variant's formatted name gives back its identifier, and parsing the formatted name yields `Ok` of that variant |
| `DefineMethods.FmtInjective` | src/crypto/methods.rs:59-67 | In a valid table, distinct declared variants format to distinct strings |
| `Methods.Table` | src/crypto/methods.rs:72-105 | The two invocations, row for row: ten rows without the openssl feature (lines 72-84) and sixteen with it (lines 86-105) |
| `Methods.TableValid` | src/crypto/methods.rs:72-105 | Both tables are valid: variants and identifiers are pairwise distinct, and every identifier is a nonempty lower-case identifier. Every key length is positive |
| `Methods.DefaultIsPrefix` | src/crypto/methods.rs:72-105 | The default table is exactly the first ten rows of the openssl table |
| `Methods.Discriminant` | src/crypto/methods.rs:14-18 | Every variant has a position below 16, and the position is below 10 exactly when the variant is not an AES CFB mode |
| `Methods.TableInDiscriminantOrder` | src/crypto/methods.rs:72-105 | In both tables, row `i` declares the variant at position `i` |
| `Methods.RankIsDiscriminant` | src/crypto/methods.rs:13 | The rank read from the table equals the variant's declaration position, in either build |
| `Methods.AllLength` | src/crypto/methods.rs:37-43 | `all()` has 10 entries in the default build and 16 in the openssl build |
| `Methods.AllComplete` | src/crypto/methods.rs:37-43 | The openssl build's `all()` lists all 16 variants. The default build's `all()` lists a variant exactly when it is not an AES CFB mode |
| `Methods.KeyLengthPositive` | src/crypto/methods.rs:72-105 | Every method of either build has a positive key length |
| `Methods.LibraryPartition` | src/crypto/methods.rs:88-104 | `belong_lib()` is `Openssl` for the six AES CFB methods and `Crypto` for every other method |
| `Methods.DefaultIsCryptoOnly` | src/crypto/methods.rs:72-84 | In the default build every method is backed by `Crypto` |
| `Methods.SameRowInOpenssl` | src/crypto/methods.rs:72-105 | Every default variant is declared in the openssl build, at the same position and by the same row |
| `Methods.OpensslExtendsDefault` | src/crypto/methods.rs:72-105 | Every default variant exists in the openssl build. Its rank, `info()`, `belong_lib()`, identifier and formatted name are the same there |
| `Methods.OpensslParsesDefaultNames` | src/crypto/methods.rs:72-105 | Every string that the default build parses is parsed by the openssl build to the same variant |
| `Methods.CaseSensitive` | src/crypto/methods.rs:50-54 | In either build, any string containing an upper-case ASCII letter is rejected |
| `Methods.TooLongRejected` | src/crypto/methods.rs:72-105 | Any string longer than 12 characters, the openssl build's longest identifier, is rejected in either build |
| `Methods.BuildAllDistinct` | src/crypto/methods.rs:37-43 | `all()` of either build lists no method twice |
| `Methods.BuildRoundTrip` | src/crypto/methods.rs:48-67 | For every method of either build, parsing its formatted name yields `Ok` of that method |
| `Methods.BuildFmtInjective` | src/crypto/methods.rs:59-67 | In either build, distinct methods format to distinct strings |
| `Methods.InfoExamples` | src/crypto/methods.rs:74-83 | `info()` gives (16,16) for aes_128_ctr, (16,0) for rc4, (32,24) for xchacha20 and (32,8) for salsa20, in both builds |
| `Methods.FromStrExamples` | src/crypto/methods.rs:48-83 | `aes-128-ctr` and `rc4` parse to their variants. `aes_256_ctr` and `aes-256-ctr` parse alike. aes_128_ctr formats as `aes-128-ctr`. xchacha20 formats as `xchacha20` and parses back |
| `Methods.RejectionExamples` | src/crypto/methods.rs:48-56 | `AES-128-CTR` and `not-a-real-cipher` are rejected in both builds |
| `Methods.CfbNotInDefault` | src/crypto/methods.rs:72-84 | In the default build, `aes-128-cfb` is rejected |
| `Methods.CfbNeedsOpenssl` | src/crypto/methods.rs:72-105 | `aes-128-cfb` names a method only when the openssl feature is on. There it parses to aes_128_cfb, which is backed by `Openssl` and has `info()` (16,16), as line 99 declares |

## Left out

- `fmt::Formatter`, `write!` and `fmt::Result`: `Fmt` returns the formatted string itself, and the formatter's I/O result is not modelled.
- The derived `Debug`, `Hash`, `Clone`, `Copy`, `PartialEq` and `PartialOrd`: Dafny datatypes have equality built in. The derived `Ord` is kept as `DefineMethods.Rank` and `Methods.Discriminant`; its comparison operators are not written out.
- The macro's token-level expansion and `#[cfg(feature = "openssl")]` gating: the expansion is a set of functions of the table, and the two builds are a `Build` parameter. The six CFB variants and the `BelongLib::Openssl` tag exist in the Dafny types in both builds. `Declared(Table(Default), m)` stands for the enum of the default build, and `Methods.DefaultIsCryptoOnly` shows that the default build never yields `Openssl`.
- `DefineMethods.ValidTable` asks of an identifier only that it is nonempty and made of ASCII letters, digits and `_`. Rust's further rules (no leading digit, non-ASCII identifiers, keywords) are left out; none of the guarantees depends on them.
- `str::replace` with patterns longer than one character: only the single-character case that the source uses is modelled. Strings are sequences of characters rather than UTF-8 bytes. Both characters concerned are ASCII, so this changes nothing.
- `usize` lengths are unbounded `nat`s. Every value in the tables is at most 32, so no overflow can occur.
- Everything that consumes the registry (encryption, key derivation, provider dispatch) lies outside `src/crypto/methods.rs` and is not part of this model.
