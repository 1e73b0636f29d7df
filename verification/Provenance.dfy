/** The provenance of src/registry.rs, printed into an evidence record and parsed back. */
module Provenance {
  import opened Wrappers

  datatype Capability = Definition | TypeDefinition | References | CallHierarchy | TypeHierarchy

  const ALL: seq<Capability> := [Definition, TypeDefinition, References, CallHierarchy, TypeHierarchy]

  /** `CITABLE_MINIMUM`. */
  const FLOOR: set<Capability> := {Definition, References}

  /** `as_slug`. */
  function Slug(c: Capability): string
  {
    match c
    case Definition => "definition"
    case TypeDefinition => "typeDefinition"
    case References => "references"
    case CallHierarchy => "callHierarchy"
    case TypeHierarchy => "typeHierarchy"
  }

  function FirstWithSlug(cs: seq<Capability>, slug: string): Option<Capability>
  {
    if cs == [] then None
    else if Slug(cs[0]) == slug then Some(cs[0])
    else FirstWithSlug(cs[1..], slug)
  }

  /** `from_slug`. */
  function FromSlug(slug: string): Option<Capability> { FirstWithSlug(ALL, slug) }

  datatype Provenance = Provenance(provider: string, version: Option<string>, capability: Capability)

  /** The two fields of an evidence record that provenance uses. */
  datatype Evidence = Evidence(parserRule: Option<string>, token: Option<string>)

  const TAG := "lsp/1"
  const PROVIDER := "provider"
  const CAPABILITY := "capability"

  function ProviderPart(id: string): string { PROVIDER + "=" + id }
  function CapabilityPart(c: Capability): string { CAPABILITY + "=" + Slug(c) }

  /** `to_relation_evidence`. */
  function Encode(p: Provenance): Evidence
  {
    Evidence(Some(TAG + ";" + (ProviderPart(p.provider) + ";" + CapabilityPart(p.capability))), p.version)
  }

  // ---- parsing --------------------------------------------------------------

  function Find(s: string, c: char): (i: nat)
    ensures i <= |s| && c !in s[..i] && (i < |s| ==> s[i] == c) && (i == |s| ==> c !in s)
  {
    if s == [] || s[0] == c then 0
    else
      var i := Find(s[1..], c) + 1;
      assert s[..i] == [s[0]] + s[1..][..i - 1] && s == [s[0]] + s[1..];
      i
  }

  /** `str::split` on one character. */
  function Split(s: string, c: char): (parts: seq<string>)
    ensures parts != []
    decreases |s|
  {
    var i := Find(s, c);
    if i == |s| then [s] else [s[..i]] + Split(s[i + 1..], c)
  }

  datatype Pair = Pair(key: string, value: string)

  /** `str::split_once`. */
  function SplitOnce(s: string, c: char): Option<Pair>
  {
    var i := Find(s, c);
    if i == |s| then None else Some(Pair(s[..i], s[i + 1..]))
  }

  datatype Fields = Fields(provider: Option<string>, capability: Option<Capability>)

  function ReadPart(f: Fields, pair: Pair): Fields
  {
    if pair.key == PROVIDER then f.(provider := Some(pair.value))
    else if pair.key == CAPABILITY then f.(capability := FromSlug(pair.value))
    else f
  }

  /** The loop over the parts; a part without an equals sign rejects the whole record. */
  function ReadParts(f: Fields, parts: seq<string>): Option<Fields>
    decreases |parts|
  {
    if parts == [] then Some(f)
    else match SplitOnce(parts[0], '=')
      case None => None
      case Some(pair) => ReadParts(ReadPart(f, pair), parts[1..])
  }

  /** `from_relation_evidence`. */
  function Decode(e: Evidence): Option<Provenance>
  {
    match e.parserRule
    case None => None
    case Some(rule) =>
      var parts := Split(rule, ';');
      if parts[0] != TAG then None
      else match ReadParts(Fields(None, None), parts[1..])
        case None => None
        case Some(f) =>
          if f.provider.None? || f.capability.None? then None
          else Some(Provenance(f.provider.value, e.token, f.capability.value))
  }

  method FromRelationEvidence(e: Evidence) returns (r: Option<Provenance>)
    ensures r == Decode(e)
  {
    hide Split, FromSlug;
    if e.parserRule.None? { return None; }
    var parts := Split(e.parserRule.value, ';');
    if parts[0] != TAG { return None; }
    ghost var all := ReadParts(Fields(None, None), parts[1..]);
    var provider: Option<string>, capability: Option<Capability> := None, None;
    var i := 1;
    while i < |parts|
      invariant 1 <= i <= |parts|
      invariant ReadParts(Fields(provider, capability), parts[i..]) == all
    {
      assert parts[i..][0] == parts[i] && parts[i..][1..] == parts[i + 1..];
      var pair := SplitOnce(parts[i], '=');
      if pair.None? { return None; }
      if pair.value.key == PROVIDER {
        provider := Some(pair.value.value);
      } else if pair.value.key == CAPABILITY {
        capability := FromSlug(pair.value.value);
      }
      i := i + 1;
    }
    if provider.None? || capability.None? { return None; }
    r := Some(Provenance(provider.value, e.token, capability.value));
  }

  /** `is_lsp_evidence`. */
  predicate IsLspEvidence(e: Evidence)
  {
    e.parserRule.Some? && TAG <= e.parserRule.value
  }

  // ---- round trip -----------------------------------------------------------

  /** Slugs are told apart. */
  lemma SlugRoundTrip(c: Capability)
    ensures FromSlug(Slug(c)) == Some(c)
    ensures forall s :: FromSlug(s) == Some(c) ==> s == Slug(c)
  {
    hide Slug;
    SlugsDiffer();
    assert c in ALL;
    FirstIsFound(ALL, c);
    forall s ensures FromSlug(s).Some? ==> Slug(FromSlug(s).value) == s
    {
      FirstHasSlug(ALL, s);
    }
  }

  /** And hold no separator. */
  lemma SlugIsPlain(c: Capability)
    ensures ';' !in CapabilityPart(c)
  {
    assert ';' !in Slug(c) && ';' !in CAPABILITY;
  }

  lemma SlugsDiffer()
    ensures forall a, b :: Slug(a) == Slug(b) ==> a == b
  {
    assert |Slug(Definition)| == 10 && Slug(References)[0] == 'r';
    assert Slug(CallHierarchy)[0] == 'c' && Slug(TypeHierarchy)[4] == 'H' && Slug(TypeDefinition)[4] == 'D';
  }

  lemma {:induction false} FirstIsFound(cs: seq<Capability>, c: Capability)
    requires c in cs && forall a, b :: Slug(a) == Slug(b) ==> a == b
    ensures FirstWithSlug(cs, Slug(c)) == Some(c)
  {
    hide Slug;
    if cs[0] != c { FirstIsFound(cs[1..], c); }
  }

  lemma {:induction false} FirstHasSlug(cs: seq<Capability>, slug: string)
    ensures var r := FirstWithSlug(cs, slug); r.Some? ==> Slug(r.value) == slug
  {
    if cs != [] { FirstHasSlug(cs[1..], slug); }
  }

  lemma {:induction false} FindIs(s: string, c: char, i: nat)
    requires i < |s| && s[i] == c && c !in s[..i]
    ensures Find(s, c) == i
  {
    if i > 0 {
      assert s[..i][0] == s[0] && s[1..][..i - 1] == s[..i][1..];
      FindIs(s[1..], c, i - 1);
    }
  }

  lemma FindAfter(a: string, c: char, b: string)
    requires c !in a
    ensures Find(a + [c] + b, c) == |a|
  {
    var s := a + [c] + b;
    assert s[..|a|] == a;
    FindIs(s, c, |a|);
  }

  lemma SplitFirst(a: string, b: string)
    requires ';' !in a
    ensures Split(a + ";" + b, ';') == [a] + Split(b, ';')
  {
    var s := a + ";" + b;
    FindAfter(a, ';', b);
    assert s[..|a|] == a && s[|a| + 1..] == b;
  }

  lemma SplitLast(a: string)
    requires ';' !in a
    ensures Split(a, ';') == [a]
  {
    assert Find(a, ';') == |a|;
  }

  lemma KeyedPart(key: string, value: string)
    requires '=' !in key
    ensures SplitOnce(key + "=" + value, '=') == Some(Pair(key, value))
  {
    var s := key + "=" + value;
    FindAfter(key, '=', value);
    assert s[..|key|] == key && s[|key| + 1..] == value;
  }

  lemma PlainIdRoundTrip(p: Provenance)
    requires ';' !in p.provider
    ensures Decode(Encode(p)) == Some(p)
  {
    hide Split, SplitOnce, FromSlug, Slug;
    var a, b := ProviderPart(p.provider), CapabilityPart(p.capability);
    SlugRoundTrip(p.capability);
    SlugIsPlain(p.capability);
    assert ';' !in TAG && '=' !in PROVIDER && '=' !in CAPABILITY;
    SplitFirst(TAG, a + ";" + b);
    SplitFirst(a, b);
    SplitLast(b);
    var parts := [TAG, a, b];
    assert Split(Encode(p).parserRule.value, ';') == parts;
    assert parts[1..] == [a, b] && [a, b][1..] == [b] && [b][1..] == [];
    KeyedPart(PROVIDER, p.provider);
    KeyedPart(CAPABILITY, Slug(p.capability));
    var f := ReadPart(Fields(None, None), Pair(PROVIDER, p.provider));
    assert ReadPart(f, Pair(CAPABILITY, Slug(p.capability))) == Fields(Some(p.provider), Some(p.capability));
    assert ReadParts(f, [b]) == ReadParts(Fields(Some(p.provider), Some(p.capability)), []);
  }

  lemma {:induction false} PartsHoldNoSeparator(s: string, c: char)
    ensures forall i :: 0 <= i < |Split(s, c)| ==> c !in Split(s, c)[i]
    decreases |s|
  {
    var i := Find(s, c);
    if i < |s| { PartsHoldNoSeparator(s[i + 1..], c); }
  }

  lemma {:induction false} ReadHoldsNoSeparator(f: Fields, parts: seq<string>)
    requires forall i :: 0 <= i < |parts| ==> ';' !in parts[i]
    requires f.provider.Some? ==> ';' !in f.provider.value
    ensures var r := ReadParts(f, parts); r.Some? && r.value.provider.Some? ==> ';' !in r.value.provider.value
    decreases |parts|
  {
    hide FromSlug;
    if parts != [] && SplitOnce(parts[0], '=').Some? {
      ReadHoldsNoSeparator(ReadPart(f, SplitOnce(parts[0], '=').value), parts[1..]);
    }
  }

  /** No record decodes to a provider with a semicolon in its id. */
  lemma DecodedHasNoSeparator(e: Evidence)
    requires Decode(e).Some?
    ensures ';' !in Decode(e).value.provider
  {
    hide Split, ReadParts;
    var parts := Split(e.parserRule.value, ';');
    PartsHoldNoSeparator(e.parserRule.value, ';');
    ReadHoldsNoSeparator(Fields(None, None), parts[1..]);
  }

  /** Provenance survives its encoding exactly when its provider id has no semicolon: any version,
      any capability, and equals signs do no harm. */
  lemma RoundTripIff(p: Provenance)
    ensures Decode(Encode(p)) == Some(p) <==> ';' !in p.provider
  {
    hide Decode, Encode;
    if Decode(Encode(p)) == Some(p) { DecodedHasNoSeparator(Encode(p)); }
    if ';' !in p.provider { PlainIdRoundTrip(p); }
  }

  /** Whatever decodes, from anyone's record, is stored and read back unchanged. */
  lemma DecodedIsStable(e: Evidence)
    requires Decode(e).Some?
    ensures Decode(Encode(Decode(e).value)) == Decode(e)
  {
    hide Decode, Encode;
    DecodedHasNoSeparator(e);
    RoundTripIff(Decode(e).value);
  }

  // ---- what decodes ---------------------------------------------------------

  /** The value of the last part with this key. */
  function LastValue(parts: seq<string>, key: string): Option<string>
  {
    if parts == [] then None
    else
      var n := |parts| - 1;
      match SplitOnce(parts[n], '=')
      case None => LastValue(parts[..n], key)
      case Some(pair) => if pair.key == key then Some(pair.value) else LastValue(parts[..n], key)
  }

  predicate AllKeyed(parts: seq<string>) { forall i :: 0 <= i < |parts| ==> SplitOnce(parts[i], '=').Some? }

  lemma {:induction false} ReadSnoc(f: Fields, parts: seq<string>, last: string)
    ensures ReadParts(f, parts + [last]) ==
      match ReadParts(f, parts)
      case None => None
      case Some(g) =>
        match SplitOnce(last, '=')
        case None => None
        case Some(pair) => Some(ReadPart(g, pair))
    decreases |parts|
  {
    hide SplitOnce, ReadPart;
    if parts == [] {
      assert ([] + [last])[0] == last && ([] + [last])[1..] == [];
    } else {
      assert (parts + [last])[0] == parts[0] && (parts + [last])[1..] == parts[1..] + [last];
      match SplitOnce(parts[0], '=') {
        case None =>
        case Some(pair) => ReadSnoc(ReadPart(f, pair), parts[1..], last);
      }
    }
  }

  lemma {:induction false} LastWins(parts: seq<string>)
    ensures ReadParts(Fields(None, None), parts) ==
      if !AllKeyed(parts) then None
      else
        var slug := LastValue(parts, CAPABILITY);
        Some(Fields(LastValue(parts, PROVIDER), if slug.None? then None else FromSlug(slug.value)))
    decreases |parts|
  {
    hide SplitOnce, FromSlug;
    if parts != [] {
      var n := |parts| - 1;
      assert parts == parts[..n] + [parts[n]];
      LastWins(parts[..n]);
      ReadSnoc(Fields(None, None), parts[..n], parts[n]);
    }
  }

  /** A record decodes exactly when its first part is the tag, every other part has an equals sign,
      some part names a provider, and the last part naming a capability names a known one. The last
      part with a key wins. */
  lemma DecodeMeaning(e: Evidence, p: Provenance)
    ensures Decode(e) == Some(p) <==>
      && e.parserRule.Some? && p.version == e.token
      && var parts := Split(e.parserRule.value, ';');
         && parts[0] == TAG && AllKeyed(parts[1..])
         && LastValue(parts[1..], PROVIDER) == Some(p.provider)
         && LastValue(parts[1..], CAPABILITY) == Some(Slug(p.capability))
  {
    hide Split, AllKeyed, LastValue, ReadParts, FromSlug, Slug;
    if e.parserRule.Some? {
      var parts := Split(e.parserRule.value, ';');
      LastWins(parts[1..]);
      SlugRoundTrip(p.capability);
    }
  }

  /** The prefix check looks at the tag and nothing else. */
  lemma PrefixIff(e: Evidence)
    ensures IsLspEvidence(e) <==> exists rest :: e.parserRule == Some("lsp/1" + rest)
  {
    if IsLspEvidence(e) {
      var rule := e.parserRule.value;
      assert rule == TAG + rule[|TAG|..];
    }
  }

  /** Whatever decodes passes the cheap prefix check. */
  lemma DecodedHasPrefix(e: Evidence)
    requires Decode(e).Some?
    ensures IsLspEvidence(e)
  {
    hide ReadParts;
    var rule := e.parserRule.value;
    assert Split(rule, ';')[0] == rule[..Find(rule, ';')];
  }

  /** The prefix check alone is weaker: a later version of the tag passes it and does not decode. */
  lemma PrefixIsNotEnough()
    ensures exists e :: IsLspEvidence(e) && Decode(e).None?
  {
    var rule := "lsp/10";
    var e := Evidence(Some(rule), None);
    SplitLast(rule);
    assert TAG <= rule;
    assert IsLspEvidence(e) && Decode(e).None?;
  }
}
