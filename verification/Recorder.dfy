/** The proof recorder and the citable gate of src/proof.rs. A language is its slug. */
module Recorder {
  import opened Wrappers
  import opened StableSort
  import opened Provenance

  type Language = string

  datatype Mode = Advisory | Citable

  datatype FileFailure = FileFailure(file: string, reason: string)

  /** `LanguageEnrichment`. */
  datatype Record = Record(
    language: Language,
    provider: Option<string>,
    version: Option<string>,
    probed: set<Capability>,
    missing: set<Capability>,
    attempted: nat,
    enriched: nat,
    failed: nat,
    emitted: nat,
    failures: seq<FileFailure>)

  datatype Gap = Gap(language: Language, detail: string, required: bool)

  /** `LspEnrichmentProof`. */
  datatype Proof = Proof(mode: Mode, required: seq<Language>, languages: seq<Record>, gaps: seq<Gap>)

  datatype Probe = Probe(provider: string, version: Option<string>, expected: set<Capability>, probed: set<Capability>)

  /** One call on the recorder. */
  datatype Event =
    | Probed(language: Language, probe: Probe)
    | NoProvider(language: Language, detail: string)
    | Attempted(language: Language)
    | Enriched(language: Language, relations: nat)
    | Failed(language: Language, file: string, reason: string)

  datatype State = State(mode: Mode, required: seq<Language>, languages: seq<Record>, gaps: seq<Gap>)

  // ---- recording ------------------------------------------------------------

  function NewRecord(language: Language): Record
  {
    Record(language, None, None, {}, {}, 0, 0, 0, 0, [])
  }

  /** What a call does to its language's record. */
  function Amend(r: Record, e: Event): Record
  {
    match e
    case Probed(_, p) => r.(provider := Some(p.provider), version := p.version, probed := p.probed,
                            missing := p.expected - p.probed)
    case NoProvider(_, _) => r
    case Attempted(_) => r.(attempted := r.attempted + 1)
    case Enriched(_, n) => r.(enriched := r.enriched + 1, emitted := r.emitted + n)
    case Failed(_, file, reason) => r.(failed := r.failed + 1, failures := r.failures + [FileFailure(file, reason)])
  }

  /** The first record of the language is amended, or a new one added at the end. */
  function AddTo(rs: seq<Record>, e: Event): seq<Record>
  {
    if rs == [] then [Amend(NewRecord(e.language), e)]
    else if rs[0].language == e.language then [Amend(rs[0], e)] + rs[1..]
    else [rs[0]] + AddTo(rs[1..], e)
  }

  function Note(s: State, e: Event): State
  {
    if e.NoProvider? then s.(gaps := s.gaps + [Gap(e.language, e.detail, e.language in s.required)])
    else s.(languages := AddTo(s.languages, e))
  }

  /** `with_required`. */
  function Start(mode: Mode, required: seq<Language>): State { State(mode, required, [], []) }

  function Run(s: State, es: seq<Event>): State
  {
    if es == [] then s else Note(Run(s, es[..|es| - 1]), es[|es| - 1])
  }

  // ---- finishing ------------------------------------------------------------

  /** Rust's order on strings, by code point. */
  predicate LexLeq(a: string, b: string)
  {
    a == [] || (b != [] && (a[0] < b[0] || (a[0] == b[0] && LexLeq(a[1..], b[1..]))))
  }

  function SlugLeq(): (Language, Language) -> bool { (a: Language, b: Language) => LexLeq(a, b) }
  function RecordLeq(): (Record, Record) -> bool { (a: Record, b: Record) => LexLeq(a.language, b.language) }
  function GapLeq(): (Gap, Gap) -> bool { (a: Gap, b: Gap) => LexLeq(a.language, b.language) }

  /** `Vec::dedup`: consecutive repeats go. */
  function Dedup(xs: seq<Language>): seq<Language>
  {
    if |xs| <= 1 then xs
    else if xs[0] == xs[1] then Dedup(xs[1..])
    else [xs[0]] + Dedup(xs[1..])
  }

  function Finish(s: State): Proof
  {
    Proof(s.mode, Dedup(Sort(s.required, SlugLeq())), Sort(s.languages, RecordLeq()), Sort(s.gaps, GapLeq()))
  }

  // ---- the gate -------------------------------------------------------------

  datatype Violation =
    | MissingRequiredProvider(language: Language)
    | BelowMinimumCapabilities(language: Language, missing: set<Capability>)
    | FileFailures(language: Language, failed: nat)
    | UnresolvedRequiredGap(language: Language, detail: string)

  /** `LspEnrichmentProof::language`. */
  function RecordFor(rs: seq<Record>, language: Language): Option<Record>
  {
    if rs == [] then None
    else if rs[0].language == language then Some(rs[0])
    else RecordFor(rs[1..], language)
  }

  function FlaggedGap(gs: seq<Gap>, language: Language): Option<Gap>
  {
    if gs == [] then None
    else if gs[0].language == language && gs[0].required then Some(gs[0])
    else FlaggedGap(gs[1..], language)
  }

  predicate HasGap(gs: seq<Gap>, language: Language)
  {
    exists i :: 0 <= i < |gs| && gs[i].language == language
  }

  predicate MeetsMinimum(r: Record) { FLOOR <= r.probed }

  function JudgeGap(p: Proof, language: Language): seq<Violation>
  {
    match FlaggedGap(p.gaps, language)
    case None => []
    case Some(g) => [UnresolvedRequiredGap(language, g.detail)]
  }

  function JudgeRecord(p: Proof, language: Language): seq<Violation>
  {
    match RecordFor(p.languages, language)
    case None => if HasGap(p.gaps, language) then [] else [MissingRequiredProvider(language)]
    case Some(r) =>
      (if r.provider.None? then [MissingRequiredProvider(language)]
       else if !MeetsMinimum(r) then [BelowMinimumCapabilities(language, FLOOR - r.probed)]
       else [])
      + if r.failed > 0 then [FileFailures(language, r.failed)] else []
  }

  function Violations(p: Proof, required: seq<Language>): seq<Violation>
  {
    if required == [] then []
    else
      var n := |required| - 1;
      Violations(p, required[..n]) + JudgeGap(p, required[n]) + JudgeRecord(p, required[n])
  }

  /** The part of `verify_citable` that looks at a language's record. */
  method JudgeLanguage(p: Proof, language: Language) returns (violations: seq<Violation>)
    ensures violations == JudgeRecord(p, language)
  {
    hide RecordFor, HasGap, MeetsMinimum;
    violations := [];
    var record := RecordFor(p.languages, language);
    if record.None? {
      if !HasGap(p.gaps, language) {
        violations := [MissingRequiredProvider(language)];
      }
    } else {
      if record.value.provider.None? {
        violations := [MissingRequiredProvider(language)];
      } else if !MeetsMinimum(record.value) {
        violations := [BelowMinimumCapabilities(language, FLOOR - record.value.probed)];
      }
      if record.value.failed > 0 {
        violations := violations + [FileFailures(language, record.value.failed)];
      }
    }
  }

  /** `verify_citable`. */
  method VerifyCitable(p: Proof) returns (r: Result<(), seq<Violation>>)
    ensures r == if Violations(p, p.required) == [] then Ok(()) else Err(Violations(p, p.required))
  {
    hide RecordFor, FlaggedGap, JudgeRecord;
    var violations: seq<Violation> := [];
    var i := 0;
    assert p.required[..0] == [];
    while i < |p.required|
      invariant i <= |p.required|
      invariant violations == Violations(p, p.required[..i])
    {
      var language := p.required[i];
      assert p.required[..i + 1][..i] == p.required[..i];
      ghost var before := violations;
      var gap := FlaggedGap(p.gaps, language);
      if gap.Some? {
        violations := violations + [UnresolvedRequiredGap(language, gap.value.detail)];
      }
      assert violations == before + JudgeGap(p, language);
      var found := JudgeLanguage(p, language);
      violations := violations + found;
      i := i + 1;
    }
    assert p.required[..i] == p.required;
    if violations == [] {
      r := Ok(());
    } else {
      r := Err(violations);
    }
  }

  /** Amending the entry where it was found is what `AddTo` says. */
  lemma {:induction false} AmendedInPlace(before: seq<Record>, rs: seq<Record>, at: nat, e: Event)
    requires at < |rs| && rs[at].language == e.language
    requires forall i :: 0 <= i < at ==> rs[i].language != e.language
    requires || (rs == before && at < |before|)
             || (rs == before + [NewRecord(e.language)] && at == |before|)
    ensures AddTo(before, e) == rs[at := Amend(rs[at], e)]
    decreases |rs|
  {
    if before == [] {
      assert rs == [NewRecord(e.language)];
    } else if at == 0 {
      assert rs == [rs[0]] + rs[1..];
    } else {
      assert rs[0] == before[0];
      AmendedInPlace(before[1..], rs[1..], at - 1, e);
      assert rs[at := Amend(rs[at], e)] == [rs[0]] + rs[1..][at - 1 := Amend(rs[at], e)];
    }
  }
}
