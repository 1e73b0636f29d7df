/** The recorder object of src/proof.rs, its calls kept as history. What `RecorderTheorems` says of a
    run of events is said here of the object. */
module ProofRecording {
  import opened Wrappers
  import opened StableSort
  import opened Recorder
  import opened RecorderTheorems

  class ProofRecorder {
    var mode: Mode
    var required: seq<Language>
    var languages: seq<Record>
    var gaps: seq<Gap>
    ghost var history: seq<Event>

    ghost function View(): State
      reads this
    {
      State(mode, required, languages, gaps)
    }

    /** The recorder is where its calls lead from the start. */
    ghost predicate Valid()
      reads this
    {
      View() == Run(Start(mode, required), history)
    }

    constructor (mode: Mode, required: seq<Language>)
      ensures Valid() && history == []
      ensures View() == Start(mode, required)
    {
      this.mode, this.required, languages, gaps, history := mode, required, [], [], [];
    }

    /** `entry_mut`, with the place of the entry for the reference to it. */
    method Entry(language: Language) returns (at: nat)
      modifies this`languages
      ensures at < |languages|
      ensures languages[at].language == language
      ensures forall i :: 0 <= i < at ==> languages[i].language != language
      ensures || (languages == old(languages) && at < |old(languages)|)
              || (languages == old(languages) + [NewRecord(language)] && at == |old(languages)|)
    {
      at := 0;
      while at < |languages| && languages[at].language != language
        invariant at <= |languages|
        invariant forall i :: 0 <= i < at ==> languages[i].language != language
      {
        at := at + 1;
      }
      if at == |languages| {
        languages := languages + [NewRecord(language)];
      }
    }

    method RecordProbe(language: Language, probe: Probe)
      requires Valid()
      modifies this`history, this`languages
      ensures Valid() && history == old(history) + [Probed(language, probe)]
      ensures View() == Note(old(View()), Probed(language, probe))
    {
      ghost var e := Probed(language, probe);
      RunSnoc(Start(mode, required), history, e);
      var at := Entry(language);
      AmendedInPlace(old(languages), languages, at, e);
      languages := languages[at := languages[at].(provider := Some(probe.provider), version := probe.version,
                                                  probed := probe.probed, missing := probe.expected - probe.probed)];
      history := history + [e];
    }

    method RecordGap(language: Language, detail: string)
      requires Valid()
      modifies this`history, this`gaps
      ensures Valid() && history == old(history) + [NoProvider(language, detail)]
      ensures View() == Note(old(View()), NoProvider(language, detail))
      // The flag is right, and a gap of a required language is never made good.
      ensures gaps == old(gaps) + [Gap(language, detail, language in required)] && languages == old(languages)
      ensures language in required ==> Refused(mode, required, history)
    {
      ghost var e := NoProvider(language, detail);
      RunSnoc(Start(mode, required), history, e);
      if language in required { SpoiledIsRefused(mode, required, history, e); }
      gaps := gaps + [Gap(language, detail, language in required)];
      history := history + [e];
    }

    method FileAttempted(language: Language)
      requires Valid()
      modifies this`history, this`languages
      ensures Valid() && history == old(history) + [Attempted(language)]
      ensures View() == Note(old(View()), Attempted(language))
    {
      ghost var e := Attempted(language);
      RunSnoc(Start(mode, required), history, e);
      var at := Entry(language);
      AmendedInPlace(old(languages), languages, at, e);
      languages := languages[at := languages[at].(attempted := languages[at].attempted + 1)];
      history := history + [e];
    }

    method FileEnriched(language: Language, relations: nat)
      requires Valid()
      modifies this`history, this`languages
      ensures Valid() && history == old(history) + [Enriched(language, relations)]
      ensures View() == Note(old(View()), Enriched(language, relations))
    {
      ghost var e := Enriched(language, relations);
      RunSnoc(Start(mode, required), history, e);
      var at := Entry(language);
      AmendedInPlace(old(languages), languages, at, e);
      languages := languages[at := languages[at].(enriched := languages[at].enriched + 1,
                                                  emitted := languages[at].emitted + relations)];
      history := history + [e];
    }

    method FileFailed(language: Language, file: string, reason: string)
      requires Valid()
      modifies this`history, this`languages
      ensures Valid() && history == old(history) + [Failed(language, file, reason)]
      ensures View() == Note(old(View()), Failed(language, file, reason))
      ensures language in required ==> Refused(mode, required, history)
    {
      ghost var e := Failed(language, file, reason);
      RunSnoc(Start(mode, required), history, e);
      if language in required { SpoiledIsRefused(mode, required, history, e); }
      var at := Entry(language);
      AmendedInPlace(old(languages), languages, at, e);
      languages := languages[at := languages[at].(failed := languages[at].failed + 1,
                                                  failures := languages[at].failures + [FileFailure(file, reason)])];
      history := history + [e];
    }

    method FinishRecording() returns (p: Proof)
      requires Valid()
      modifies this
      ensures p == Finish(old(View()))
      // Nothing is lost or invented, and each language's gaps keep their order.
      ensures multiset(p.languages) == multiset(old(languages)) && multiset(p.gaps) == multiset(old(gaps))
      ensures forall l :: Filter(p.gaps, GapOf(l)) == Filter(old(gaps), GapOf(l))
      ensures forall l :: l in p.required <==> l in old(required)
      // The form is canonical: sorted, one entry per language, no required language twice.
      ensures Sorted(p.languages, RecordLeq()) && Sorted(p.gaps, GapLeq()) && Strict(p.required)
      ensures forall l :: |Filter(p.languages, RecordOf(l))| <= 1
      // And the gate reads the whole history off it.
      ensures Flagged(p)
      ensures Violations(p, p.required) == [] <==> forall l :: l in old(required) ==> CitableRun(history, l)
      ensures history == old(history)
    {
      hide Run, Sort, Dedup, Filter, Violations, CitableRun, Flagged, Strict, LexLeq, Sorted;
      FinishedMeans(mode, required, history);
      languages := Sort(languages, RecordLeq());
      gaps := Sort(gaps, GapLeq());
      required := Dedup(Sort(required, SlugLeq()));
      p := Proof(mode, required, languages, gaps);
    }
  }

  /** However the recording goes on, the gate refuses it. */
  ghost predicate Refused(mode: Mode, required: seq<Language>, history: seq<Event>)
  {
    forall more :: var p := Finish(Run(Start(mode, required), history + more)); Violations(p, p.required) != []
  }

  lemma SpoiledIsRefused(mode: Mode, required: seq<Language>, history: seq<Event>, e: Event)
    requires e.language in required && (e.NoProvider? || e.Failed?)
    ensures Refused(mode, required, history + [e])
  {
    hide Finish, Run, Violations;
    forall more
      ensures var p := Finish(Run(Start(mode, required), history + [e] + more)); Violations(p, p.required) != []
    {
      RefusalIsFinal(mode, required, history + [e], more, |history|);
    }
  }

  lemma RunSnoc(s: State, es: seq<Event>, e: Event)
    ensures Run(s, es + [e]) == Note(Run(s, es), e)
  {
    assert (es + [e])[..|es|] == es;
  }

  lemma FinishedMeans(mode: Mode, required: seq<Language>, history: seq<Event>)
    ensures var s := Run(Start(mode, required), history);
      var p := Finish(s);
      && multiset(p.languages) == multiset(s.languages) && multiset(p.gaps) == multiset(s.gaps)
      && (forall l :: Filter(p.gaps, GapOf(l)) == Filter(s.gaps, GapOf(l)))
      && (forall l :: l in p.required <==> l in required)
      && Sorted(p.languages, RecordLeq()) && Sorted(p.gaps, GapLeq()) && Strict(p.required)
      && (forall l :: |Filter(p.languages, RecordOf(l))| <= 1)
      && Flagged(p)
      && (Violations(p, p.required) == [] <==> forall l :: l in required ==> CitableRun(history, l))
  {
    hide Run, Sort, Dedup, Filter, Violations, CitableRun, Flagged, LexLeq, Strict, Tell, TellGaps;
    var s := Run(Start(mode, required), history);
    var p := Finish(s);
    RunTells(mode, required, history, "");
    SortKeeps(s.languages, RecordLeq());
    SortKeeps(s.gaps, GapLeq());
    Ordering();
    SortSorts(s.languages, RecordLeq());
    SortSorts(s.gaps, GapLeq());
    SortSorts(required, SlugLeq());
    DedupSorted(Sort(required, SlugLeq()));
    forall l
      ensures Filter(p.gaps, GapOf(l)) == Filter(s.gaps, GapOf(l))
      ensures l in p.required <==> l in required
      ensures |Filter(p.languages, RecordOf(l))| <= 1
    {
      FinishedTells(mode, required, history, l);
      RunTells(mode, required, history, l);
      EntriesAreUnique(mode, required, history, l);
    }
    RecorderFlags(mode, required, history);
    RecordedGateIsExact(mode, required, history);
  }
}
