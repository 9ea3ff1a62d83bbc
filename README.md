# auth-stores, modelled in Dafny

This project models the core of `auth-stores`. That is a pair of gRPC user stores, each answering the same three requests:

- `Authenticate`: check a login name and password, then return the user's subject.
- `FindClaims`: return the requested claims of one user, found by subject or by login name.
- `SearchClaims`: return the requested claims of every user a search term selects.

There are two backends:

- **The directory backend** (`grpc/ldap/svc/svc.go`) answers from LDAP / Active Directory. A claim-to-attribute mapping translates claim names to directory attributes and back. A claim can also bring a "child" claim with a fixed value. It uses the GUID codec below.
- **The flat-file backend** (`grpc/accounts/main.go`) answers from a list of user records.

**The GUID codec** (`grpc/ldap/guid/guid.go`) does three things:

- converts a GUID to and from 16 bytes, either big-endian or in the Windows layout;
- renders the canonical `8-4-4-4-12` hex text;
- parses that text back.

Modules:

- `Guid` (`guid.dfy`): the codec. `Encode`/`Decode` are the pure conversions. `EncodeToArray` fills a fresh array the way `toArray` does. `FromString` is the parser with its guarded early returns and its loop over the `Data4` offsets. Its specification is `IsGuidString`/`FieldsOf`.
- `Hex` (`hex.dfy`): hex digits, `%0Nx`, `%x` on bytes, and `strconv.ParseUint` in base 16.
- `Decimal` (`decimal.dfy`): `strconv.ParseInt` in base 0 for a 32-bit result, read as decimal with an optional sign. It also has the rendering that inverts it.
- `Bitwise` (`bitwise.dfy`): Go's `|` on integers in two's complement, and the bit it tests.
- `Ascii` (`ascii.dfy`): ASCII lower-casing, `strings.EqualFold` and `strings.Contains`.
- `Users` (`users.dfy`): the request and response messages, the identifier types `SUBJECT` = 0 and `USER_NAME` = 1, and Go's map read (a missing key reads as `""`).
- `LdapSvc` (`ldap_svc.dfy`): the directory backend.
  - The configuration is an explicit `Config` value: the claim mapping, the children table and the conversion types.
  - The directory is a `Directory` value. It records whether the connection (dial plus service bind) opens, what a search returns, and whether a bind succeeds.
  - Each loop of the source is a method proved against a specification function or relation: `MapClaimsToLdapAttrs`, `FindClaimName`, `MapLdapAttrsToClaims`, `MakeItem`/`FindItems`, `EscapeGuid` and `MapAllItems`.
  - The three operations are methods that update the response step by step, as the source does.
- `Accounts` (`accounts.dfy`): the flat-file backend. The user file is a `UserFile` value (a list of users, or `Missing`). The hex SHA-256 digest is a function parameter.

The source builds every search filter by plain text substitution: the login name, the search term and the escaped GUID go in verbatim, with no filter escaping. The model does the same.

When the subject identifier is not GUID text, `FindClaims` only logs the parse error. It then searches for the zero GUID, sixteen `\00`. `UnparsedSubjectFilter` states this.

## Model

| member | source | states |
|---|---|---|
| Guid.Decode | grpc/ldap/guid/guid.go:22-29 | `fromArray` reads `Data1` from bytes 0-3, `Data2` from 4-5, `Data3` from 6-7 and `Data4` from 8-15; writing the result back in the same order gives the input bytes. |
| Guid.Encode | grpc/ldap/guid/guid.go:31-38 | In the bytes `toArray` writes, bytes 0-3 read back as `Data1`, 4-5 as `Data2`, 6-7 as `Data3`, and bytes 8-15 are `Data4`. |
| Guid.FromArray | grpc/ldap/guid/guid.go:40-43 | Big-endian: `Data1` is `b0·2^24 + b1·2^16 + b2·2^8 + b3`, `Data2` is `b4·2^8 + b5`, `Data3` is `b6·2^8 + b7`, and `Data4` is bytes 8-15. |
| Guid.ToArray | grpc/ldap/guid/guid.go:45-49 | `FromArray` reads the big-endian array back as the same GUID. |
| Guid.FromWindowsArray | grpc/ldap/guid/guid.go:51-54 | Windows layout: the first three fields are read least significant byte first (`Data1` is `b3·2^24 + b2·2^16 + b1·2^8 + b0`), and `Data4` is bytes 8-15. |
| Guid.ToWindowsArray | grpc/ldap/guid/guid.go:56-60 | `FromWindowsArray` reads the Windows array back as the same GUID. |
| Guid.DecodeEncode | grpc/ldap/guid/guid.go:22-38 | Reading back the 16 bytes `toArray` writes, in the same byte order, gives the same GUID. |
| Guid.EncodeDecode | grpc/ldap/guid/guid.go:22-38 | Writing out the GUID `fromArray` reads, in the same byte order, gives the same 16 bytes. |
| Guid.Data4Verbatim | grpc/ldap/guid/guid.go:22-38 | Bytes 8 to 15 are `Data4` verbatim in both directions and in both byte orders. |
| Guid.Uint32RoundTrip | grpc/ldap/guid/guid.go:24-33 | `Uint32` and `PutUint32` are inverse, for each byte order. |
| Guid.Uint16RoundTrip | grpc/ldap/guid/guid.go:25-35 | `Uint16` and `PutUint16` are inverse, for each byte order. |
| Guid.WindowsArraySwapsGroups | grpc/ldap/guid/guid.go:40-60 | The Windows array is the big-endian array with bytes 0-3 reversed, 4-5 and 6-7 swapped, and 8-15 unchanged. |
| Guid.PutUint32 | grpc/ldap/guid/guid.go:33 | Writes exactly the four bytes of the value at the offset; every other byte of the array is unchanged. |
| Guid.PutUint16 | grpc/ldap/guid/guid.go:34-35 | Writes exactly the two bytes of the value at the offset; every other byte of the array is unchanged. |
| Guid.EncodeToArray | grpc/ldap/guid/guid.go:31-38 | `toArray` returns a fresh array holding the 16-byte encoding of the GUID. |
| Guid.ToString | grpc/ldap/guid/guid.go:62-70 | The text has 36 characters: `-` at 8, 13, 18 and 23, and a lower-case hex digit everywhere else. |
| Guid.ToStringGroups | grpc/ldap/guid/guid.go:62-70 | The five groups render `Data1` (8 digits), `Data2` and `Data3` (4 each), `Data4[:2]` and `Data4[2:]`. |
| Guid.FieldsOfToString | grpc/ldap/guid/guid.go:62-112 | The parser accepts the text of every GUID and returns that same GUID. |
| Guid.FromString | grpc/ldap/guid/guid.go:75-112 | Succeeds exactly on valid text: length 36, the four hyphens, and hex digits (either case) elsewhere. On success it returns the GUID the digits denote; on failure, the zero GUID. |
| Guid.BadGroupRejects | grpc/ldap/guid/guid.go:85-108 | A digit group that `ParseUint` rejects makes the whole text invalid. |
| Guid.ToStringOfFields | grpc/ldap/guid/guid.go:85-112 | Parsing valid text and rendering the result gives the text in lower case, so upper-case digits are accepted. |
| Hex.ParseUintOfFormat | grpc/ldap/guid/guid.go:64-104 | Parsing the `%0Nx` rendering of a value below `16^N` with `4N` bits gives the value back. |
| Hex.ParseUintFits | grpc/ldap/guid/guid.go:85-104 | For a group of `n` digits parsed with `4n` bits, parsing succeeds exactly when the group is non-empty hex. |
| Hex.Format | grpc/ldap/guid/guid.go:64 | For a value below `16^N`, `%0Nx` has exactly N characters, all of them lower-case hex digits. |
| Hex.ValueOfFormat | grpc/ldap/guid/guid.go:64-104 | For a value that fits in N hex digits, parsing its `%0Nx` rendering gives the value back. |
| Hex.FormatOfValue | grpc/ldap/guid/guid.go:64-104 | Rendering the value of a digit string at its own width gives the string in lower case. |
| Hex.FormatBytes | grpc/ldap/guid/guid.go:68-69 | `%x` of a byte slice has two lower-case digits per byte. |
| Hex.FormatBytesPair | grpc/ldap/guid/guid.go:68-69 | Characters `2k` and `2k+1` of `%x` render byte `k`. |
| LdapSvc.ErrorCodesDistinct | grpc/ldap/svc/svc.go:20-32 | The six error codes are pairwise distinct and none of them is 0. |
| LdapSvc.SamAccountNameFilter | grpc/ldap/svc/svc.go:48 | The login-name filter is the fixed prefix, the name verbatim, then `))`. |
| LdapSvc.ObjectGuidFilter | grpc/ldap/svc/svc.go:47 | The `objectGUID` filter is the fixed prefix, the escaped bytes verbatim, then `))`. |
| LdapSvc.SearchFilter | grpc/ldap/svc/svc.go:49 | The fuzzy filter starts with the fixed prefix followed by the term, and ends with `*)))`. Its length is the prefix, five copies of the term and 46 fixed characters. |
| LdapSvc.FiltersDetermineTerms | grpc/ldap/svc/svc.go:47-49 | Each of the three filters determines what it was built from: equal filters come from equal names, escaped bytes or terms. |
| LdapSvc.ClaimAttrs | grpc/ldap/svc/svc.go:163-173 | The attribute list is never longer than the claim list. |
| LdapSvc.ClaimAttrsMembers | grpc/ldap/svc/svc.go:163-173 | Every attribute is the non-empty mapping of some requested claim, and no requested claim with a mapping is dropped. |
| LdapSvc.ClaimAttrsConcat | grpc/ldap/svc/svc.go:163-173 | The mapping acts claim by claim and keeps order: mapping `xs + ys` gives the mapping of `xs` followed by that of `ys`. |
| LdapSvc.MapClaimsToLdapAttrs | grpc/ldap/svc/svc.go:163-173 | The append loop computes `ClaimAttrs` of the claims. |
| LdapSvc.FindClaimName | grpc/ldap/svc/svc.go:176-183 | The search returns a claim that maps to the attribute, or `""` when no claim does. |
| LdapSvc.VisitExtends | grpc/ldap/svc/svc.go:191-201 | One visit of a record attribute takes the claims of the visited part to the claims of the part plus that attribute. |
| LdapSvc.MapLdapAttrsToClaims | grpc/ldap/svc/svc.go:186-203 | On a well-formed configuration, visiting the attributes in any order gives `ClaimsOf` the record. |
| LdapSvc.ClaimsOf | grpc/ldap/svc/svc.go:186-203 | The reference definition of the claims of a record. A record with no attributes gives no claims; the four lemmas below give its full contents. |
| LdapSvc.ParentClaimValues | grpc/ldap/svc/svc.go:191-194 | Every claim whose attribute the record holds carries that attribute's value. |
| LdapSvc.ChildClaimValues | grpc/ldap/svc/svc.go:195-199 | A filled claim's non-empty child carries the child's fixed value, whatever the parent's value (even `""`). |
| LdapSvc.ClaimsOfKeys | grpc/ldap/svc/svc.go:186-203 | The result holds only filled claims and their non-empty children. |
| LdapSvc.ClaimsOfContents | grpc/ldap/svc/svc.go:186-203 | The three facts above together: parents with their values, children with theirs, and nothing else. |
| LdapSvc.UntargetedKeyIgnored | grpc/ldap/svc/svc.go:191-193 | A record attribute that no claim maps to (for instance `dn`) does not change the claims. |
| LdapSvc.Values | grpc/ldap/svc/svc.go:139-153 | The converted attributes are exactly the requested ones whose conversion is `string` or `guid`, each with its decoded value. |
| LdapSvc.ItemContents | grpc/ldap/svc/svc.go:136-157 | An item holds `dn` set to the entry's DN and exactly the converted requested attributes. A `string` value is the entry's text. A `guid` value is canonical GUID text that parses to `FromWindowsArray` of the first 16 raw bytes. |
| LdapSvc.MakeItem | grpc/ldap/svc/svc.go:137-156 | The inner loop builds `ItemOf` the entry. |
| LdapSvc.FindItems | grpc/ldap/svc/svc.go:116-160 | A failed search gives an error and no items; otherwise one item per entry, in entry order. |
| LdapSvc.AccountError | grpc/ldap/svc/svc.go:244-257 | Bit 1 (`0x2`) set gives `UserAccountDisabled`. Otherwise bit 4 (`0x10`) set gives `UserAccountLocked`. Otherwise there is no error. |
| Bitwise.OrFlagUnchanged | grpc/ldap/svc/svc.go:245-247 | `x \| 2^k == x` holds exactly when bit `k` of `x` is set. |
| Decimal.ParseFormatInt32 | grpc/ldap/svc/svc.go:244 | Every 32-bit integer rendered in decimal parses back to itself. |
| Decimal.ParseRejectsOverflow | grpc/ldap/svc/svc.go:244 | The decimal rendering of every integer above `2147483647` or below `-2147483648` fails to parse, as `ParseInt`'s 32-bit range check rejects it. |
| LdapSvc.Escaped | grpc/ldap/svc/svc.go:313-322 | The escape is three characters per byte: a backslash, then the byte's two lower-case hex digits, in byte order. |
| LdapSvc.EscapeGuid | grpc/ldap/svc/svc.go:313-322 | The builder loop over the Windows array produces `Escaped` of that array. |
| LdapSvc.EscapedZeros | grpc/ldap/svc/svc.go:313-322 | Each zero byte escapes to `\00`. |
| LdapSvc.EscapedZero | grpc/ldap/svc/svc.go:304-323 | The zero GUID escapes to 48 characters, sixteen times `\00`. |
| LdapSvc.Authenticate | grpc/ldap/svc/svc.go:206-281 | Failures are checked in order: connect, search, no entry, then the account-control value (`LdapSearchFailed` if it does not parse, else `AccountError`), then the user bind. `Succeeded` holds exactly when `Error` is 0, and then `Subject` is the first item's `objectGUID`. |
| LdapSvc.AuthSubjectIsGuid | grpc/ldap/svc/svc.go:277-278 | With a `guid` conversion for `objectGUID`, the subject is canonical GUID text that parses to the entry's GUID. |
| LdapSvc.ClaimsFilter | grpc/ldap/svc/svc.go:301-330 | A subject lookup always searches by the escaped Windows bytes of some GUID, so the filter always has the same length, even when the text does not parse. A login-name lookup carries the identifier verbatim after the prefix. |
| LdapSvc.SubjectFilterRoundTrip | grpc/ldap/svc/svc.go:303-323 | A subject rendered from an entry's Windows-order GUID bytes yields a filter on exactly those bytes. |
| LdapSvc.UnparsedSubjectFilter | grpc/ldap/svc/svc.go:304-323 | A subject that is not GUID text still gives a search: its filter holds sixteen `\00`. |
| LdapSvc.FindClaims | grpc/ldap/svc/svc.go:284-355 | Failures are checked in order: connect, unknown identifier type (before any search), search, no entry. Each failure leaves the claims empty. On success the claims are `ClaimsOf` the first item, and later items are ignored. |
| LdapSvc.MapAllItems | grpc/ldap/svc/svc.go:390-396 | The results have one slot per item, each holding `ClaimsOf` that item. |
| LdapSvc.SearchClaims | grpc/ldap/svc/svc.go:358-400 | Fails only when the connection or the search fails, with no results. Otherwise it succeeds with one result per entry, in order, each `ClaimsOf` its item; no entries gives an empty result list. |
| Accounts.ErrorCodesDistinct | grpc/accounts/main.go:37-41 | The three error codes are pairwise distinct and none of them is 0. |
| Accounts.FirstIndex | grpc/accounts/main.go:129-142 | Returns the index of the first user that matches, or none when no user matches. |
| Accounts.FoundIsFirstMatch | grpc/accounts/main.go:123-143 | A user is found exactly when the file loaded and some user matches. The user found is the first match in list order. An unknown identifier type finds nobody. |
| Accounts.Found | grpc/accounts/main.go:123-143 | Nothing is found when the file is missing or no user matches; a user that is found is in the list and matches. |
| Accounts.FindUser | grpc/accounts/main.go:123-143 | The early-return loop returns `Found`. |
| Accounts.Authenticate | grpc/accounts/main.go:45-62 | A user that is not found gives `UserNotFound`. Otherwise, if the digest matches the stored hash (ignoring case), the call succeeds with the user's id; if not, `InvalidPassword`. `Succeeded` holds exactly when `Error` is 0. |
| Accounts.ProjectClaims | grpc/accounts/main.go:73-75 | The copy loop computes `Project`: exactly the requested keys, each with the user's claim or `""` when the user has none. |
| Accounts.FindClaims | grpc/accounts/main.go:64-80 | No user gives `UserNotFound` with an empty map. Otherwise the call succeeds with the projection of the user's claims. |
| Accounts.Matching | grpc/accounts/main.go:91-93 | The selected users are never more than the listed ones, and the term selects each of them. |
| Accounts.MatchingMembers | grpc/accounts/main.go:91-93 | A user is in the search result exactly when it is in the list and the term occurs in its lower-cased login name or `name` claim. |
| Accounts.MatchingConcat | grpc/accounts/main.go:92-102 | The search acts user by user and keeps list order. |
| Accounts.EmptyTermMatchesAll | grpc/accounts/main.go:91-93 | The empty term selects every user. |
| Accounts.SearchClaims | grpc/accounts/main.go:82-106 | Always succeeds. An unreadable file gives `UsersMissing` and no results. Otherwise there is one projection per selected user, in list order. |
| Ascii.Contains | grpc/accounts/main.go:93 | `strings.Contains` holds exactly when the term occurs at some index. |

## Left out

- `openConn` (grpc/ldap/svc/svc.go:61-113) is not modelled step by step. Dialling, TLS, reading the CA files and the service bind together become the one `Directory.opens` flag.
- The `go-ldap` `Search` and `Bind` calls become the `Directory.search` and `Directory.bind` functions. The search base, scope and other request settings are not modelled.
- `viper` lookups become explicit maps in `Config`. Viper treats keys case-insensitively and returns them lower-cased from `AllSettings`; the model compares names exactly and returns claim names as stored. Viper is not part of this model: `viper.Sub` returns nil for an absent section (grpc/ldap/svc/svc.go:134, 164, 187-188), and the first lookup on that nil value panics in the source (for instance in `mapLdapAttrsToClaims` when a claim is found but no children section is configured). The model reads an absent section as an empty map and does not model the panic.
- Logging (`zap`) and `defer conn.Close()` are left out; neither changes a response.
- LdapSvc.MapLdapAttrsToClaims: the contract holds only on a `WellFormed` configuration: no two claims map to the same attribute, no child name is a claim name, and children with the same name have the same value. Otherwise Go's random map order can change the result, and the model promises nothing.
- LdapSvc.FindClaims: requires `WellFormed` for the same reason.
- LdapSvc.SearchClaims: requires `WellFormed` for the same reason.
- LdapSvc.MapAllItems: requires `WellFormed` for the same reason.
- LdapSvc.SearchFilter: the contract places only the first of the five copies of the term (after `sAMAccountName=`). The other four positions are left unstated because proving them about the long literal was too costly for the verifier. The body builds all five, as the source's format string does.
- Hex.Format: keeps only the `N` low-order digits of a value of `16^N` or more, where Go's `%0Nx` prints every digit. Every caller passes a value that fits: GUID fields and bytes.
- LdapSvc.FindItems: requires every requested `guid` attribute of every entry to have at least 16 raw bytes. With fewer, the source's `[:16]` slice panics; the model does not model the panic.
- LdapSvc.Authenticate, LdapSvc.FindClaims and LdapSvc.SearchClaims inherit the same 16-byte requirement.
- Decimal.ParseInt32: only decimal is read. The base-0 prefixes (`0x`, `0o`, `0b`, a leading `0` for octal) and `_` separators of `strconv.ParseInt` are not modelled.
- SHA-256 is a function parameter of Accounts.Authenticate, not an implementation.
- `strings.EqualFold` and `strings.ToLower` fold ASCII letters only, not Unicode.
- Strings are sequences of characters with one character per byte, so multi-byte UTF-8 text is not modelled.
- `getUsers` (grpc/accounts/main.go:108-121) reads and decodes `users.json`. It becomes the `UserFile` input.
- The gRPC servers and `main` (grpc/ldap/main.go, `main` in grpc/accounts/main.go) and the configuration, logging and listener helpers in tools/tools.go are not part of this model.
- grpc/ldap/svc/svc_test.go needs a live directory and is not part of this model.
