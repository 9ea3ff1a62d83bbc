/**
 * The directory (LDAP / Active Directory) backend: the mapping between claim names and
 * directory attribute names, the shaping of search results, the account-control check, the
 * escaping of a GUID into a search filter, and the three operations as chains of guarded
 * steps. The directory itself is an oracle: whether the connection (with its service bind)
 * opens, what a search returns, and whether a bind succeeds.
 */
module LdapSvc {
  import opened Hex
  import opened Users
  import opened Bitwise
  import opened Decimal
  import Guid

  // ---------------------------------------------------------------- error codes

  const LdapConnectionFailed: int := 1
  const LdapSearchFailed: int := 2
  const UserNotFound: int := 3
  const UserBindFailed: int := 4
  const UserAccountDisabled: int := 5
  const UserAccountLocked: int := 6

  /** The six error codes are distinct and none of them is the "no error" value 0. */
  lemma ErrorCodesDistinct()
    ensures var codes := [LdapConnectionFailed, LdapSearchFailed, UserNotFound,
                          UserBindFailed, UserAccountDisabled, UserAccountLocked];
      forall i, j :: 0 <= i < j < |codes| ==> codes[i] != codes[j] && codes[i] != 0
  {
  }

  // ---------------------------------------------------------------- attribute names and filters

  const ObjectGuidAttr := "objectGUID"
  const DnAttr := "dn"
  const UserAccountControlAttr := "userAccountControl"

  /** `ADS_UF_ACCOUNTDISABLE` and `ADS_UF_LOCKOUT` of `userAccountControl`. */
  const FlagAccountDisable: nat := 0x0000_0002
  const FlagLockout: nat := 0x0000_0010

  const SamNamePrefix := "(&(objectCategory=person)(objectClass=user)(sAMAccountName="
  const GuidPrefix := "(&(objectCategory=person)(objectClass=user)(objectGUID="
  const SearchPrefix := "(&(objectCategory=person)(objectClass=user)(|(sAMAccountName="

  /** The directory filter selecting a person by login name; the name is inserted verbatim. */
  function SamAccountNameFilter(name: string): (f: string)
    ensures |f| == |SamNamePrefix| + |name| + 2
    ensures f[..|SamNamePrefix|] == SamNamePrefix && f[|SamNamePrefix|..|SamNamePrefix| + |name|] == name
    ensures f[|f| - 2..] == "))"
  {
    SamNamePrefix + name + "))"
  }

  /** The directory filter selecting a person by `objectGUID`, given the escaped GUID bytes. */
  function ObjectGuidFilter(escaped: string): (f: string)
    ensures |f| == |GuidPrefix| + |escaped| + 2
    ensures f[..|GuidPrefix|] == GuidPrefix && f[|GuidPrefix|..|GuidPrefix| + |escaped|] == escaped
    ensures f[|f| - 2..] == "))"
  {
    GuidPrefix + escaped + "))"
  }

  /** The fuzzy filter: a prefix match of the term on five naming attributes. */
  function SearchFilter(term: string): (f: string)
    ensures |f| == |SearchPrefix| + 5 * |term| + 46
    ensures f[..|SearchPrefix|] == SearchPrefix && f[|SearchPrefix|..|SearchPrefix| + |term|] == term
    ensures f[|f| - 4..] == "*)))"
  {
    SearchPrefix + term + "*)(sn=" + term + "*)(givenName=" + term + "*)(displayName=" + term
      + "*)(mail=" + term + "*)))"
  }

  /** Each filter determines the name, escaped bytes or term it was built from. */
  lemma FiltersDetermineTerms(a: string, b: string)
    ensures SamAccountNameFilter(a) == SamAccountNameFilter(b) ==> a == b
    ensures ObjectGuidFilter(a) == ObjectGuidFilter(b) ==> a == b
    ensures SearchFilter(a) == SearchFilter(b) ==> a == b
  {
  }

  // ---------------------------------------------------------------- configuration

  /** The child claim a parent claim synthesises: its name and its fixed value. */
  datatype Child = Child(name: string, value: string)

  /**
   * The configuration the backend reads: claim name to attribute name, claim name to its
   * child claim, and attribute name to conversion type (`"string"` or `"guid"`).
   */
  datatype Config = Config(
    mapping: map<string, string>,
    children: map<string, Child>,
    conversions: map<string, string>)

  /** `<claim>.name` in the children table, or the empty string. */
  function ChildName(cfg: Config, c: string): string {
    if c in cfg.children then cfg.children[c].name else ""
  }

  /** `<claim>.value` in the children table, or the empty string. */
  function ChildValue(cfg: Config, c: string): string {
    if c in cfg.children then cfg.children[c].value else ""
  }

  /**
   * A configuration whose reverse mapping is deterministic: no two claims map to the same
   * attribute, no child name is also a claim name, and children that share a name share a
   * value. Under it the order in which a record's attributes are visited does not matter.
   */
  predicate WellFormed(cfg: Config) {
    && (forall c1, c2 :: c1 in cfg.mapping && c2 in cfg.mapping && cfg.mapping[c1] == cfg.mapping[c2] ==> c1 == c2)
    && (forall c :: c in cfg.children ==> cfg.children[c].name !in cfg.mapping)
    && (forall c1, c2 :: c1 in cfg.children && c2 in cfg.children && cfg.children[c1].name == cfg.children[c2].name
          ==> cfg.children[c1].value == cfg.children[c2].value)
  }

  // ---------------------------------------------------------------- claims to attributes

  /** The attribute of each claim, in claim order, dropping claims that map to nothing. */
  function ClaimAttrs(mapping: map<string, string>, claims: seq<string>): (attrs: seq<string>)
    ensures |attrs| <= |claims|
  {
    if claims == [] then []
    else
      var rest, last := claims[..|claims| - 1], claims[|claims| - 1];
      var a := Get(mapping, last);
      ClaimAttrs(mapping, rest) + if a != "" then [a] else []
  }

  /**
   * The attributes are exactly the non-empty mapped attributes of the claims: each comes
   * from some claim, and no claim with a mapping is dropped.
   */
  lemma {:induction false} ClaimAttrsMembers(mapping: map<string, string>, claims: seq<string>)
    ensures forall a :: a in ClaimAttrs(mapping, claims) ==> a != "" && exists c :: c in claims && Get(mapping, c) == a
    ensures forall c :: c in claims && Get(mapping, c) != "" ==> Get(mapping, c) in ClaimAttrs(mapping, claims)
  {
    if claims != [] {
      var rest, last := claims[..|claims| - 1], claims[|claims| - 1];
      ClaimAttrsMembers(mapping, rest);
      assert claims == rest + [last];
      assert forall c :: c in claims ==> c in rest || c == last;
    }
  }

  /** Mapping a list of claims maps its two halves independently: order is kept. */
  lemma {:induction false} ClaimAttrsConcat(mapping: map<string, string>, xs: seq<string>, ys: seq<string>)
    ensures ClaimAttrs(mapping, xs + ys) == ClaimAttrs(mapping, xs) + ClaimAttrs(mapping, ys)
    decreases |ys|
  {
    if ys == [] {
      assert xs + ys == xs;
    } else {
      var ys' := ys[..|ys| - 1];
      assert (xs + ys)[..|xs + ys| - 1] == xs + ys';
      assert (xs + ys)[|xs + ys| - 1] == ys[|ys| - 1];
      ClaimAttrsConcat(mapping, xs, ys');
    }
  }

  /** `mapClaimsToLdapAttrs`: appends the mapped attribute of each claim that has one. */
  method MapClaimsToLdapAttrs(mapping: map<string, string>, claims: seq<string>) returns (attrs: seq<string>)
    ensures attrs == ClaimAttrs(mapping, claims)
  {
    attrs := [];
    for i := 0 to |claims|
      invariant attrs == ClaimAttrs(mapping, claims[..i])
    {
      assert claims[..i + 1][..i] == claims[..i];
      var attr := Get(mapping, claims[i]);
      if attr != "" {
        attrs := attrs + [attr];
      }
    }
    assert claims[..|claims|] == claims;
  }

  // ---------------------------------------------------------------- attributes to claims

  /** `c` is a claim that maps to `attr`, or `c` is empty and no claim maps to `attr`. */
  predicate FoundFor(mapping: map<string, string>, attr: string, c: string) {
    (c in mapping && mapping[c] == attr) || (c == "" && forall k :: k in mapping ==> mapping[k] != attr)
  }

  /**
   * `findClaimName`: a linear search of the mapping, in no particular order, for a claim that
   * maps to `attr`; the empty string when there is none.
   */
  method FindClaimName(mapping: map<string, string>, attr: string) returns (c: string)
    ensures FoundFor(mapping, attr, c)
  {
    var keys := mapping.Keys;
    while keys != {}
      invariant keys <= mapping.Keys
      invariant forall k :: k in mapping && k !in keys ==> mapping[k] != attr
      decreases keys
    {
      var k :| k in keys;
      if mapping[k] == attr {
        return k;
      }
      keys := keys - {k};
    }
    return "";
  }

  /** A claim that the record `attrs` fills: a non-empty claim name whose attribute is present. */
  predicate IsParent(cfg: Config, attrs: map<string, string>, c: string) {
    c != "" && c in cfg.mapping && cfg.mapping[c] in attrs
  }

  /** The value any child named `n` carries; all of them agree on a well-formed configuration. */
  ghost function ChildValueNamed(cfg: Config, n: string): string
    requires exists c :: c in cfg.children && cfg.children[c].name == n
  {
    var c :| c in cfg.children && cfg.children[c].name == n;
    cfg.children[c].value
  }

  /** The claims the record `attrs` fills. */
  ghost function Parents(cfg: Config, attrs: map<string, string>): set<string> {
    set c | c in cfg.mapping && IsParent(cfg, attrs, c)
  }

  /** The non-empty child names of the claims `ps`. */
  ghost function Kids(cfg: Config, ps: set<string>): set<string> {
    set c | c in ps && ChildName(cfg, c) != "" :: ChildName(cfg, c)
  }

  /**
   * The claims a record maps to: each filled claim with its attribute's value, and the
   * non-empty child of each filled claim with the child's fixed value.
   */
  ghost function ClaimsOf(cfg: Config, attrs: map<string, string>): (r: map<string, string>)
    ensures attrs == map[] ==> r == map[]
  {
    var ps := Parents(cfg, attrs);
    KidClaims(cfg, ps) + ParentClaims(cfg, attrs, ps)
  }

  /** Each child name of the claims `ps` with the value every child of that name carries. */
  ghost function KidClaims(cfg: Config, ps: set<string>): map<string, string> {
    map n | n in Kids(cfg, ps) :: ChildValueNamed(cfg, n)
  }

  /** Each claim of `ps` with the value of the attribute it maps to. */
  ghost function ParentClaims(cfg: Config, attrs: map<string, string>, ps: set<string>): map<string, string>
    requires forall c :: c in ps ==> c in cfg.mapping && cfg.mapping[c] in attrs
  {
    map c | c in ps :: attrs[cfg.mapping[c]]
  }

  /** What one visit of the loop in `mapLdapAttrsToClaims` does to the claims. */
  function Visit(cfg: Config, claims: map<string, string>, c: string, v: string): map<string, string> {
    if c == "" then claims
    else if ChildName(cfg, c) != "" then claims[c := v][ChildName(cfg, c) := ChildValue(cfg, c)]
    else claims[c := v]
  }

  /** Visiting attribute `k` adds exactly the claim found for it (if any) to the filled claims. */
  lemma ParentsGrow(cfg: Config, a: map<string, string>, k: string, v: string, c: string)
    requires WellFormed(cfg) && k !in a && FoundFor(cfg.mapping, k, c)
    ensures Parents(cfg, a[k := v]) == if c == "" then Parents(cfg, a) else Parents(cfg, a) + {c}
  {
  }

  lemma KidsGrow(cfg: Config, ps: set<string>, c: string)
    ensures Kids(cfg, ps + {c}) == if ChildName(cfg, c) != "" then Kids(cfg, ps) + {ChildName(cfg, c)} else Kids(cfg, ps)
  {
  }

  lemma ChildValueOfName(cfg: Config, c: string)
    requires WellFormed(cfg) && ChildName(cfg, c) != ""
    ensures ChildValueNamed(cfg, ChildName(cfg, c)) == ChildValue(cfg, c)
  {
  }

  lemma ParentClaimsGrow(cfg: Config, a: map<string, string>, k: string, v: string, c: string)
    requires WellFormed(cfg) && k !in a && c != "" && c in cfg.mapping && cfg.mapping[c] == k
    ensures ParentClaims(cfg, a[k := v], Parents(cfg, a) + {c}) == ParentClaims(cfg, a, Parents(cfg, a))[c := v]
  {
    var ps := Parents(cfg, a);
    assert forall p :: p in ps ==> cfg.mapping[p] != k;
    assert c !in ps;
  }

  lemma KidClaimsGrow(cfg: Config, ps: set<string>, c: string)
    requires WellFormed(cfg)
    ensures KidClaims(cfg, ps + {c}) ==
      if ChildName(cfg, c) != "" then KidClaims(cfg, ps)[ChildName(cfg, c) := ChildValue(cfg, c)] else KidClaims(cfg, ps)
  {
    KidsGrow(cfg, ps, c);
    if ChildName(cfg, c) != "" {
      ChildValueOfName(cfg, c);
    }
  }

  /** Updating the right operand of a right-biased union updates the union. */
  lemma UnionUpdateRight(kids: map<string, string>, parents: map<string, string>, c: string, v: string)
    ensures kids + parents[c := v] == (kids + parents)[c := v]
  {
  }

  /** Updating both operands, the left one at a key the right one never holds. */
  lemma UnionUpdateBoth(kids: map<string, string>, parents: map<string, string>, c: string, v: string, n: string, w: string)
    requires n !in parents && n != c
    ensures kids[n := w] + parents[c := v] == (kids + parents)[c := v][n := w]
  {
  }

  /** An attribute no claim maps to leaves the claims as they are. */
  lemma VisitUnmapped(cfg: Config, a: map<string, string>, k: string, v: string)
    requires WellFormed(cfg) && k !in a && FoundFor(cfg.mapping, k, "")
    ensures ClaimsOf(cfg, a[k := v]) == ClaimsOf(cfg, a)
  {
    var ps := Parents(cfg, a);
    ParentsGrow(cfg, a, k, v, "");
    assert ParentClaims(cfg, a[k := v], ps) == ParentClaims(cfg, a, ps) by {
      assert forall p :: p in ps ==> cfg.mapping[p] != k;
    }
  }

  /** An attribute claim `c` maps to sets `c`, and `c`'s child if it has one. */
  lemma VisitMapped(cfg: Config, a: map<string, string>, k: string, v: string, c: string)
    requires WellFormed(cfg) && k !in a && c != "" && FoundFor(cfg.mapping, k, c)
    ensures ClaimsOf(cfg, a[k := v]) == Visit(cfg, ClaimsOf(cfg, a), c, v)
  {
    var ps := Parents(cfg, a);
    var kids, parents := KidClaims(cfg, ps), ParentClaims(cfg, a, ps);
    assert ClaimsOf(cfg, a[k := v]) == KidClaims(cfg, ps + {c}) + parents[c := v] by {
      ParentsGrow(cfg, a, k, v, c);
      ParentClaimsGrow(cfg, a, k, v, c);
    }
    KidClaimsGrow(cfg, ps, c);
    var n := ChildName(cfg, c);
    if n != "" {
      assert n !in parents && n != c by {
        assert n !in cfg.mapping;
      }
      UnionUpdateBoth(kids, parents, c, v, n, ChildValue(cfg, c));
    } else {
      UnionUpdateRight(kids, parents, c, v);
    }
  }

  /** Visiting one more attribute of the record extends the claims of the visited part. */
  lemma VisitExtends(cfg: Config, a: map<string, string>, k: string, v: string, c: string)
    requires WellFormed(cfg) && k !in a && FoundFor(cfg.mapping, k, c)
    ensures ClaimsOf(cfg, a[k := v]) == Visit(cfg, ClaimsOf(cfg, a), c, v)
  {
    if c == "" {
      VisitUnmapped(cfg, a, k, v);
    } else {
      VisitMapped(cfg, a, k, v, c);
    }
  }

  /**
   * `mapLdapAttrsToClaims`: visits the record's attributes in no particular order; each one
   * some claim maps to sets that claim, and the claim's child if it has one.
   */
  method MapLdapAttrsToClaims(cfg: Config, attrs: map<string, string>) returns (claims: map<string, string>)
    requires WellFormed(cfg)
    ensures claims == ClaimsOf(cfg, attrs)
  {
    claims := map[];
    var todo := attrs.Keys;
    ghost var seen: map<string, string> := map[];
    while todo != {}
      invariant todo <= attrs.Keys
      invariant forall k :: k in seen <==> k in attrs && k !in todo
      invariant forall k :: k in seen ==> seen[k] == attrs[k]
      invariant claims == ClaimsOf(cfg, seen)
      decreases todo
    {
      var key :| key in todo;
      var val := attrs[key];
      var c := FindClaimName(cfg.mapping, key);
      VisitExtends(cfg, seen, key, val, c);
      if c != "" {
        claims := claims[c := val];
        var childName := ChildName(cfg, c);
        var childValue := ChildValue(cfg, c);
        if childName != "" {
          claims := claims[childName := childValue];
        }
      }
      todo := todo - {key};
      seen := seen[key := val];
    }
    assert seen == attrs;
  }

  /** Every filled claim carries its attribute's value. */
  lemma ParentClaimValues(cfg: Config, attrs: map<string, string>)
    ensures forall c :: IsParent(cfg, attrs, c) ==> c in ClaimsOf(cfg, attrs) && ClaimsOf(cfg, attrs)[c] == attrs[cfg.mapping[c]]
  {
    var ps := Parents(cfg, attrs);
    var parents := ParentClaims(cfg, attrs, ps);
    forall c | IsParent(cfg, attrs, c)
      ensures c in ClaimsOf(cfg, attrs) && ClaimsOf(cfg, attrs)[c] == attrs[cfg.mapping[c]]
    {
      assert c in ps;
      assert c in parents && parents[c] == attrs[cfg.mapping[c]];
    }
  }

  /** On a well-formed configuration every non-empty child of a filled claim carries its fixed value. */
  lemma ChildClaimValues(cfg: Config, attrs: map<string, string>)
    requires WellFormed(cfg)
    ensures forall c :: IsParent(cfg, attrs, c) && ChildName(cfg, c) != "" ==>
      ChildName(cfg, c) in ClaimsOf(cfg, attrs) && ClaimsOf(cfg, attrs)[ChildName(cfg, c)] == ChildValue(cfg, c)
  {
    var ps := Parents(cfg, attrs);
    var kids, parents := KidClaims(cfg, ps), ParentClaims(cfg, attrs, ps);
    forall c | IsParent(cfg, attrs, c) && ChildName(cfg, c) != ""
      ensures ChildName(cfg, c) in ClaimsOf(cfg, attrs) && ClaimsOf(cfg, attrs)[ChildName(cfg, c)] == ChildValue(cfg, c)
    {
      var n := ChildName(cfg, c);
      assert c in ps;
      assert n in Kids(cfg, ps);
      ChildValueOfName(cfg, c);
      assert n in kids && kids[n] == ChildValue(cfg, c);
      assert n !in cfg.mapping;
      assert n !in parents;
    }
  }

  /** Nothing but filled claims and their non-empty children appears. */
  lemma ClaimsOfKeys(cfg: Config, attrs: map<string, string>)
    ensures forall n :: n in ClaimsOf(cfg, attrs) ==>
      IsParent(cfg, attrs, n) || exists c :: IsParent(cfg, attrs, c) && ChildName(cfg, c) == n != ""
  {
    var ps := Parents(cfg, attrs);
    forall n | n in ClaimsOf(cfg, attrs)
      ensures IsParent(cfg, attrs, n) || exists c :: IsParent(cfg, attrs, c) && ChildName(cfg, c) == n != ""
    {
      if n !in ParentClaims(cfg, attrs, ps) {
        assert n in Kids(cfg, ps);
        var c :| c in ps && ChildName(cfg, c) != "" && ChildName(cfg, c) == n;
        assert IsParent(cfg, attrs, c);
      }
    }
  }

  /**
   * Which claims a record maps to and with which values: every filled claim carries its
   * attribute's value, and on a well-formed configuration every non-empty child of a filled
   * claim carries its fixed value, whatever the parent's value is (even the empty string).
   * Nothing else appears.
   */
  lemma ClaimsOfContents(cfg: Config, attrs: map<string, string>)
    requires WellFormed(cfg)
    ensures forall c :: IsParent(cfg, attrs, c) ==> c in ClaimsOf(cfg, attrs) && ClaimsOf(cfg, attrs)[c] == attrs[cfg.mapping[c]]
    ensures forall c :: IsParent(cfg, attrs, c) && ChildName(cfg, c) != "" ==>
      ChildName(cfg, c) in ClaimsOf(cfg, attrs) && ClaimsOf(cfg, attrs)[ChildName(cfg, c)] == ChildValue(cfg, c)
    ensures forall n :: n in ClaimsOf(cfg, attrs) ==>
      IsParent(cfg, attrs, n) || exists c :: IsParent(cfg, attrs, c) && ChildName(cfg, c) == n != ""
  {
    ParentClaimValues(cfg, attrs);
    ChildClaimValues(cfg, attrs);
    ClaimsOfKeys(cfg, attrs);
  }

  /**
   * A record attribute no claim maps to (for instance `dn`, unless some claim maps to it)
   * has no effect on the claims.
   */
  lemma UntargetedKeyIgnored(cfg: Config, attrs: map<string, string>, k: string)
    requires WellFormed(cfg)
    requires forall c :: c in cfg.mapping ==> cfg.mapping[c] != k
    ensures ClaimsOf(cfg, attrs) == ClaimsOf(cfg, attrs - {k})
  {
    if k in attrs {
      assert attrs == (attrs - {k})[k := attrs[k]];
      VisitUnmapped(cfg, attrs - {k}, k, attrs[k]);
    } else {
      assert attrs == attrs - {k};
    }
  }

  // ---------------------------------------------------------------- the directory and findItems

  /** A search result entry: its distinguished name, and per attribute its first text value and its raw bytes. */
  datatype Entry = Entry(dn: string, text: map<string, string>, raw: map<string, seq<Byte>>)

  datatype SearchResult = SearchFailed | Entries(entries: seq<Entry>)

  /**
   * The directory as the backend sees it: whether the connection opens (dial and service
   * bind), what a search with a filter and an attribute list returns, and whether a bind
   * with a distinguished name and a password succeeds.
   */
  datatype Directory = Directory(
    opens: bool,
    search: (string, seq<string>) -> SearchResult,
    bind: (string, string) -> bool)

  const StringConversion := "string"
  const GuidConversion := "guid"

  /** An attribute with a supported conversion type; the others are skipped. */
  predicate Converted(conv: map<string, string>, a: string) {
    Get(conv, a) == StringConversion || Get(conv, a) == GuidConversion
  }

  /** Every requested `guid` attribute of the entry holds at least the 16 bytes a GUID needs. */
  predicate GuidsPresent(conv: map<string, string>, attrs: seq<string>, e: Entry) {
    forall a :: a in attrs && Get(conv, a) == GuidConversion ==> a in e.raw && |e.raw[a]| >= 16
  }

  /** `GuidsPresent` for every entry of a successful search. */
  predicate AllGuidsPresent(conv: map<string, string>, attrs: seq<string>, res: SearchResult) {
    res.Entries? ==> forall i :: 0 <= i < |res.entries| ==> GuidsPresent(conv, attrs, res.entries[i])
  }

  /** The readable value of an attribute: its text, or its first 16 raw bytes as a Windows-order GUID. */
  function AttrValue(conv: map<string, string>, e: Entry, a: string): string
    requires Get(conv, a) == GuidConversion ==> a in e.raw && |e.raw[a]| >= 16
  {
    if Get(conv, a) == GuidConversion then Guid.ToString(Guid.FromWindowsArray(e.raw[a][..16]))
    else Get(e.text, a)
  }

  /** The item made of an entry: each requested attribute with a supported conversion, then `dn`. */
  function ItemOf(conv: map<string, string>, e: Entry, attrs: seq<string>): map<string, string>
    requires GuidsPresent(conv, attrs, e)
  {
    Values(conv, e, attrs)[DnAttr := e.dn]
  }

  /**
   * The converted attributes of an entry, added in request order: exactly the requested
   * attributes with a supported conversion, each with its decoded value.
   */
  function Values(conv: map<string, string>, e: Entry, attrs: seq<string>): (m: map<string, string>)
    requires GuidsPresent(conv, attrs, e)
    ensures forall a :: a in m <==> a in attrs && Converted(conv, a)
    ensures forall a :: a in m ==> m[a] == AttrValue(conv, e, a)
  {
    if attrs == [] then map[]
    else
      var rest, x := attrs[..|attrs| - 1], attrs[|attrs| - 1];
      assert forall a :: a in attrs <==> a in rest || a == x;
      var m := Values(conv, e, rest);
      if Converted(conv, x) then m[x := AttrValue(conv, e, x)] else m
  }

  /**
   * An item holds `dn` with the entry's DN, and exactly the requested attributes with a
   * supported conversion, each with its decoded value; a `guid` value is canonical GUID text
   * that parses back to the GUID the raw bytes hold in Windows order.
   */
  lemma ItemContents(conv: map<string, string>, e: Entry, attrs: seq<string>)
    requires GuidsPresent(conv, attrs, e)
    ensures var item := ItemOf(conv, e, attrs);
      && DnAttr in item && item[DnAttr] == e.dn
      && (forall a :: a in item <==> a == DnAttr || (a in attrs && Converted(conv, a)))
      && (forall a :: a in attrs && a != DnAttr && Get(conv, a) == StringConversion ==> item[a] == Get(e.text, a))
      && (forall a :: a in attrs && a != DnAttr && Get(conv, a) == GuidConversion ==>
            Guid.IsGuidString(item[a]) && Guid.FieldsOf(item[a]) == Guid.FromWindowsArray(e.raw[a][..16]))
  {
    forall a | a in attrs && a != DnAttr && Get(conv, a) == GuidConversion
      ensures Guid.IsGuidString(ItemOf(conv, e, attrs)[a])
      ensures Guid.FieldsOf(ItemOf(conv, e, attrs)[a]) == Guid.FromWindowsArray(e.raw[a][..16])
    {
      Guid.FieldsOfToString(Guid.FromWindowsArray(e.raw[a][..16]));
    }
  }

  /** The converted attributes of one more requested attribute. */
  lemma ValuesSnoc(conv: map<string, string>, e: Entry, attrs: seq<string>, i: nat)
    requires i < |attrs| && GuidsPresent(conv, attrs, e)
    ensures GuidsPresent(conv, attrs[..i], e) && GuidsPresent(conv, attrs[..i + 1], e)
    ensures var m := Values(conv, e, attrs[..i]);
      Values(conv, e, attrs[..i + 1]) == if Converted(conv, attrs[i]) then m[attrs[i] := AttrValue(conv, e, attrs[i])] else m
  {
    assert forall a :: a in attrs[..i + 1] ==> a in attrs;
    assert forall a :: a in attrs[..i] ==> a in attrs;
    assert attrs[..i + 1][..i] == attrs[..i];
  }

  /** The body of the loop over entries in `findItems`: one item, attribute by attribute, then `dn`. */
  method MakeItem(conv: map<string, string>, entry: Entry, attrs: seq<string>) returns (item: map<string, string>)
    requires GuidsPresent(conv, attrs, entry)
    ensures item == ItemOf(conv, entry, attrs)
  {
    var itemValues: map<string, string> := map[];
    for i := 0 to |attrs|
      invariant itemValues == Values(conv, entry, attrs[..i])
    {
      ValuesSnoc(conv, entry, attrs, i);
      var attr := attrs[i];
      var cType := Get(conv, attr);
      if cType == StringConversion {
        itemValues := itemValues[attr := Get(entry.text, attr)];
      } else if cType == GuidConversion {
        var bytes := entry.raw[attr][..16];
        itemValues := itemValues[attr := Guid.ToString(Guid.FromWindowsArray(bytes))];
      }
    }
    assert attrs[..|attrs|] == attrs;
    item := itemValues[DnAttr := entry.dn];
  }

  /**
   * `findItems`: one search; on failure no items, otherwise one item per entry, in entry
   * order, each filled attribute by attribute and finished with `dn`.
   */
  method FindItems(dir: Directory, conv: map<string, string>, filter: string, attrs: seq<string>)
    returns (items: seq<map<string, string>>, ok: bool)
    requires AllGuidsPresent(conv, attrs, dir.search(filter, attrs))
    ensures ok <==> dir.search(filter, attrs).Entries?
    ensures !ok ==> items == []
    ensures ok ==> var es := dir.search(filter, attrs).entries;
      |items| == |es| && forall i :: 0 <= i < |es| ==> items[i] == ItemOf(conv, es[i], attrs)
  {
    var res := dir.search(filter, attrs);
    if res.SearchFailed? {
      return [], false;
    }
    var es := res.entries;
    var buf := new map<string, string>[|es|](_ => map[]);
    for index := 0 to |es|
      invariant forall j :: 0 <= j < index ==> buf[j] == ItemOf(conv, es[j], attrs)
    {
      assert GuidsPresent(conv, attrs, es[index]);
      buf[index] := MakeItem(conv, es[index], attrs);
    }
    items, ok := buf[..], true;
  }

  // ---------------------------------------------------------------- the account check

  /**
   * The `userAccountControl` check on a parsed value: bit 1 (disabled) gives
   * `UserAccountDisabled`, otherwise bit 4 (locked out) gives `UserAccountLocked`, otherwise
   * there is no error.
   */
  function AccountError(x: int): (e: int)
    ensures e == UserAccountDisabled <==> Bit(x, 1)
    ensures e == UserAccountLocked <==> !Bit(x, 1) && Bit(x, 4)
    ensures e == 0 <==> !Bit(x, 1) && !Bit(x, 4)
  {
    OrFlagUnchanged(x, 1);
    OrFlagUnchanged(x, 4);
    if Or(x, FlagAccountDisable) == x then UserAccountDisabled
    else if Or(x, FlagLockout) == x then UserAccountLocked
    else 0
  }

  // ---------------------------------------------------------------- the objectGUID filter value

  /** Each byte as a backslash followed by its two lower-case hex digits, in order. */
  function Escaped(bs: seq<Byte>): (s: string)
    ensures |s| == 3 * |bs|
    ensures forall i :: 0 <= i < |bs| ==> s[3 * i] == '\\' && s[3 * i + 1..3 * i + 3] == Format(bs[i], 2)
  {
    if bs == [] then ""
    else
      var p := Escaped(bs[..|bs| - 1]);
      var s := p + "\\" + Format(bs[|bs| - 1], 2);
      assert forall i :: 0 <= i < |bs| - 1 ==> s[3 * i + 1..3 * i + 3] == p[3 * i + 1..3 * i + 3];
      s
  }

  /**
   * The filter value of the `SUBJECT` branch of `FindClaims`: every byte of the GUID's
   * Windows-order array escaped, in array order.
   */
  method EscapeGuid(id: Guid.GUID) returns (s: string)
    ensures s == Escaped(Guid.ToWindowsArray(id))
  {
    var b := Guid.EncodeToArray(id, Guid.LittleEndian);
    s := "";
    for i := 0 to b.Length
      invariant s == Escaped(b[..i])
    {
      assert b[..i + 1][..i] == b[..i];
      s := s + "\\" + Format(b[i], 2);
    }
    assert b[..b.Length] == b[..];
  }

  /** Zero bytes escape to `\00` each. */
  lemma {:induction false} EscapedZeros(bs: seq<Byte>)
    requires forall i :: 0 <= i < |bs| ==> bs[i] == 0
    ensures var s := Escaped(bs);
      forall i :: 0 <= i < |bs| ==> s[3 * i..3 * i + 3] == "\\00"
  {
    if bs != [] {
      var n := |bs| - 1;
      var p, s := Escaped(bs[..n]), Escaped(bs);
      assert s == p + "\\" + Format(bs[n], 2);
      assert s[3 * n..3 * n + 3] == "\\00" by {
        assert bs[n] == 0 && Format(0, 2) == "00";
      }
      forall i | 0 <= i < n
        ensures s[3 * i..3 * i + 3] == "\\00"
      {
        EscapedZeros(bs[..n]);
        assert s[3 * i..3 * i + 3] == p[3 * i..3 * i + 3];
      }
    }
  }

  /** The zero GUID, used when the identifier does not parse, escapes to sixteen `\00`. */
  lemma EscapedZero()
    ensures var s := Escaped(Guid.ToWindowsArray(Guid.Zero));
      |s| == 48 && forall i :: 0 <= i < 16 ==> s[3 * i..3 * i + 3] == "\\00"
  {
    var z := Guid.ToWindowsArray(Guid.Zero);
    assert z == [0, 0, 0, 0, 0, 0, 0, 0, 0, 0, 0, 0, 0, 0, 0, 0];
    EscapedZeros(z);
  }

  // ---------------------------------------------------------------- Authenticate

  /** The attributes `Authenticate` asks for about the login name. */
  const AuthAttrs := [ObjectGuidAttr, UserAccountControlAttr]

  /**
   * `Authenticate`: open the connection, look the login name up, read the first entry's
   * account-control flags, then bind as that entry's DN with the given password. Every
   * failure leaves `Succeeded` false and `Subject` empty and names its step in `Error`; on
   * success `Subject` is the entry's `objectGUID` value as the item holds it.
   */
  method Authenticate(dir: Directory, conv: map<string, string>, req: AuthRequest) returns (resp: AuthResponse)
    requires AllGuidsPresent(conv, AuthAttrs, dir.search(SamAccountNameFilter(req.username), AuthAttrs))
    ensures resp.succeeded <==> resp.error == 0
    ensures !resp.succeeded ==> resp.subject == ""
    ensures !dir.opens ==> resp.error == LdapConnectionFailed
    ensures var res := dir.search(SamAccountNameFilter(req.username), AuthAttrs);
      dir.opens ==>
        && (res.SearchFailed? ==> resp.error == LdapSearchFailed)
        && (res.Entries? && res.entries == [] ==> resp.error == UserNotFound)
        && (res.Entries? && res.entries != [] ==>
              var item := ItemOf(conv, res.entries[0], AuthAttrs);
              var flags := ParseInt32(Get(item, UserAccountControlAttr));
              && (flags.None? ==> resp.error == LdapSearchFailed)
              && (flags.Some? && AccountError(flags.value) != 0 ==> resp.error == AccountError(flags.value))
              && (flags.Some? && AccountError(flags.value) == 0 ==>
                    if dir.bind(res.entries[0].dn, req.password)
                    then resp == AuthResponse(true, Get(item, ObjectGuidAttr), 0)
                    else resp.error == UserBindFailed))
  {
    resp := AuthResponse(false, "", 0);
    if !dir.opens {
      resp := resp.(error := LdapConnectionFailed);
      return;
    }
    var filter := SamAccountNameFilter(req.username);
    var items, ok := FindItems(dir, conv, filter, AuthAttrs);
    if !ok {
      resp := resp.(error := LdapSearchFailed);
      return;
    }
    if |items| == 0 {
      resp := resp.(error := UserNotFound);
      return;
    }
    var item := items[0];
    var flags := ParseInt32(Get(item, UserAccountControlAttr));
    if flags.Some? {
      resp := resp.(error := AccountError(flags.value));
    } else {
      resp := resp.(error := LdapSearchFailed);
    }
    if resp.error > 0 {
      return;
    }
    assert DnAttr in item;
    var dn := item[DnAttr];
    if !dir.bind(dn, req.password) {
      resp := resp.(error := UserBindFailed);
      return;
    }
    resp := resp.(succeeded := true, subject := Get(item, ObjectGuidAttr));
  }

  /**
   * When `objectGUID` is converted as a GUID, the subject a successful authentication
   * returns is canonical GUID text that parses back to the GUID the entry's raw bytes hold.
   */
  lemma AuthSubjectIsGuid(dir: Directory, conv: map<string, string>, username: string)
    requires Get(conv, ObjectGuidAttr) == GuidConversion
    requires var res := dir.search(SamAccountNameFilter(username), AuthAttrs);
      AllGuidsPresent(conv, AuthAttrs, res) && res.Entries? && res.entries != []
    ensures var e := dir.search(SamAccountNameFilter(username), AuthAttrs).entries[0];
      var subject := Get(ItemOf(conv, e, AuthAttrs), ObjectGuidAttr);
      && Guid.IsGuidString(subject)
      && Guid.FieldsOf(subject) == Guid.FromWindowsArray(e.raw[ObjectGuidAttr][..16])
  {
    var e := dir.search(SamAccountNameFilter(username), AuthAttrs).entries[0];
    ItemContents(conv, e, AuthAttrs);
    assert ObjectGuidAttr in AuthAttrs;
  }

  // ---------------------------------------------------------------- FindClaims and SearchClaims

  predicate KnownIdentifierType(t: int) {
    t == SUBJECT || t == USER_NAME
  }

  /**
   * The filter `FindClaims` searches with: for a subject, the escaped Windows-order bytes of
   * the parsed GUID (the zero GUID when the identifier does not parse, as the parse error is
   * only logged); for a user name, the name verbatim.
   */
  function ClaimsFilter(req: ClaimsRequest): (f: string)
    requires KnownIdentifierType(req.identifierType)
    ensures req.identifierType == SUBJECT ==>
      (exists g: Guid.GUID :: f == ObjectGuidFilter(Escaped(Guid.ToWindowsArray(g)))) && |f| == |GuidPrefix| + 48 + 2
    ensures req.identifierType == USER_NAME ==>
      && |f| == |SamNamePrefix| + |req.identifier| + 2
      && f[..|SamNamePrefix|] == SamNamePrefix && f[|SamNamePrefix|..|f| - 2] == req.identifier
  {
    if req.identifierType == SUBJECT then
      var id := if Guid.IsGuidString(req.identifier) then Guid.FieldsOf(req.identifier) else Guid.Zero;
      ObjectGuidFilter(Escaped(Guid.ToWindowsArray(id)))
    else SamAccountNameFilter(req.identifier)
  }

  /**
   * The subject `Authenticate` returns for an entry (its GUID as text) leads `FindClaims`
   * back to a filter on exactly that entry's `objectGUID` bytes.
   */
  lemma SubjectFilterRoundTrip(raw: Guid.Bytes16, claims: seq<string>)
    ensures ClaimsFilter(ClaimsRequest(Guid.ToString(Guid.FromWindowsArray(raw)), SUBJECT, claims))
      == ObjectGuidFilter(Escaped(raw))
  {
    Guid.FieldsOfToString(Guid.FromWindowsArray(raw));
    Guid.EncodeDecode(raw, Guid.LittleEndian);
  }

  /** A subject that is not GUID text is searched for as the zero GUID: sixteen escaped zero bytes. */
  lemma UnparsedSubjectFilter(req: ClaimsRequest)
    requires req.identifierType == SUBJECT && !Guid.IsGuidString(req.identifier)
    ensures var f := ClaimsFilter(req);
      var pre := GuidPrefix;
      && |f| == |pre| + 48 + 2
      && f[..|pre|] == pre
      && forall i :: 0 <= i < 16 ==> f[|pre| + 3 * i..|pre| + 3 * i + 3] == "\\00"
  {
    var pre := GuidPrefix;
    var s := Escaped(Guid.ToWindowsArray(Guid.Zero));
    EscapedZero();
    var f := ClaimsFilter(req);
    assert f == ObjectGuidFilter(s);
    assert f[|pre|..|pre| + 48] == s;
    forall i | 0 <= i < 16
      ensures f[|pre| + 3 * i..|pre| + 3 * i + 3] == "\\00"
    {
      Guid.SubSlice(f, |pre|, |pre| + 48, 3 * i, 3 * i + 3);
    }
  }

  /**
   * `FindClaims`: open the connection, build the filter from the identifier, search for the
   * mapped attributes of the requested claims, and map the first entry's item back to claims.
   * Every failure leaves `Succeeded` false and the claims empty and names its step in `Error`.
   */
  method FindClaims(dir: Directory, cfg: Config, req: ClaimsRequest) returns (resp: ClaimsResponse)
    requires WellFormed(cfg)
    requires KnownIdentifierType(req.identifierType) ==>
      var attrs := ClaimAttrs(cfg.mapping, req.claims);
      AllGuidsPresent(cfg.conversions, attrs, dir.search(ClaimsFilter(req), attrs))
    ensures resp.succeeded <==> resp.error == 0
    ensures !resp.succeeded ==> resp.claims == map[]
    ensures !dir.opens ==> resp.error == LdapConnectionFailed
    ensures dir.opens && !KnownIdentifierType(req.identifierType) ==> resp.error == LdapSearchFailed
    ensures dir.opens && KnownIdentifierType(req.identifierType) ==>
      var attrs := ClaimAttrs(cfg.mapping, req.claims);
      var res := dir.search(ClaimsFilter(req), attrs);
      && (res.SearchFailed? ==> resp.error == LdapSearchFailed)
      && (res.Entries? && res.entries == [] ==> resp.error == UserNotFound)
      && (res.Entries? && res.entries != [] ==>
            resp == ClaimsResponse(true, ClaimsOf(cfg, ItemOf(cfg.conversions, res.entries[0], attrs)), 0))
  {
    resp := ClaimsResponse(false, map[], 0);
    if !dir.opens {
      resp := resp.(error := LdapConnectionFailed);
      return;
    }
    var filter: string;
    if req.identifierType == SUBJECT {
      var id, _ := Guid.FromString(req.identifier);
      var escaped := EscapeGuid(id);
      filter := ObjectGuidFilter(escaped);
    } else if req.identifierType == USER_NAME {
      filter := SamAccountNameFilter(req.identifier);
    } else {
      resp := resp.(error := LdapSearchFailed);
      return;
    }
    assert filter == ClaimsFilter(req);
    var attrs := MapClaimsToLdapAttrs(cfg.mapping, req.claims);
    var items, ok := FindItems(dir, cfg.conversions, filter, attrs);
    if !ok {
      resp := resp.(error := LdapSearchFailed);
      return;
    }
    if |items| == 0 {
      resp := resp.(error := UserNotFound);
      return;
    }
    var claims := MapLdapAttrsToClaims(cfg, items[0]);
    resp := resp.(succeeded := true, claims := claims);
  }

  /** The first `n` slots of `slots` hold the claims of the first `n` items. */
  ghost predicate MappedUpTo(cfg: Config, items: seq<map<string, string>>, slots: seq<map<string, string>>, n: nat)
    requires n <= |items| && n <= |slots|
  {
    forall j :: 0 <= j < n ==> slots[j] == ClaimsOf(cfg, items[j])
  }

  /** Filling slot `n` with the claims of item `n` extends the mapped prefix by one. */
  lemma MappedStep(cfg: Config, items: seq<map<string, string>>, slots: seq<map<string, string>>, n: nat)
    requires n < |items| && n < |slots| && MappedUpTo(cfg, items, slots, n) && slots[n] == ClaimsOf(cfg, items[n])
    ensures MappedUpTo(cfg, items, slots, n + 1)
  {
  }

  /** Writing slot `n` leaves the mapped prefix before it as it was. */
  lemma MappedUpdate(cfg: Config, items: seq<map<string, string>>, slots: seq<map<string, string>>, n: nat, m: map<string, string>)
    requires n < |items| && n < |slots| && MappedUpTo(cfg, items, slots, n)
    ensures MappedUpTo(cfg, items, slots[n := m], n)
  {
  }

  /** The loop of `SearchClaims` that maps every item back to claims, into a result slot each. */
  method MapAllItems(cfg: Config, items: seq<map<string, string>>) returns (results: seq<map<string, string>>)
    requires WellFormed(cfg)
    ensures |results| == |items|
    ensures forall j :: 0 <= j < |items| ==> results[j] == ClaimsOf(cfg, items[j])
  {
    var buf := new map<string, string>[|items|](_ => map[]);
    for index := 0 to |items|
      invariant MappedUpTo(cfg, items, buf[..], index)
    {
      var claims := MapLdapAttrsToClaims(cfg, items[index]);
      ghost var before := buf[..];
      buf[index] := claims;
      assert buf[..] == before[index := claims];
      MappedUpdate(cfg, items, before, index, claims);
      MappedStep(cfg, items, buf[..], index);
    }
    results := buf[..];
    assert MappedUpTo(cfg, items, results, |items|);
  }

  /**
   * `SearchClaims`: open the connection, search with the fuzzy filter for the mapped
   * attributes of the requested claims, and map every entry's item back to claims, in the
   * order of the entries. Every failure leaves `Succeeded` false and no results.
   */
  method SearchClaims(dir: Directory, cfg: Config, req: SearchRequest) returns (resp: SearchResponse)
    requires WellFormed(cfg)
    requires var attrs := ClaimAttrs(cfg.mapping, req.claims);
      AllGuidsPresent(cfg.conversions, attrs, dir.search(SearchFilter(req.search), attrs))
    ensures resp.succeeded <==> resp.error == 0
    ensures !resp.succeeded ==> resp.results == []
    ensures !dir.opens ==> resp.error == LdapConnectionFailed
    ensures var attrs := ClaimAttrs(cfg.mapping, req.claims);
      var res := dir.search(SearchFilter(req.search), attrs);
      dir.opens ==>
        && (res.SearchFailed? ==> resp.error == LdapSearchFailed)
        && (res.Entries? ==>
              && resp.succeeded
              && |resp.results| == |res.entries|
              && forall i :: 0 <= i < |res.entries| ==>
                   resp.results[i] == ClaimsOf(cfg, ItemOf(cfg.conversions, res.entries[i], attrs)))
  {
    resp := SearchResponse(false, [], 0);
    if !dir.opens {
      resp := resp.(error := LdapConnectionFailed);
      return;
    }
    var filter := SearchFilter(req.search);
    var attrs := MapClaimsToLdapAttrs(cfg.mapping, req.claims);
    var items, ok := FindItems(dir, cfg.conversions, filter, attrs);
    if !ok {
      resp := resp.(error := LdapSearchFailed);
      return;
    }
    var results := MapAllItems(cfg, items);
    resp := resp.(succeeded := true, results := results);
  }
}
