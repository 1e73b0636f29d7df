/** What a recording comes to: each language's events decide its part of the proof, and the gate
    reads the whole run off it. */
module RecorderTheorems {
  import opened Wrappers
  import opened StableSort
  import opened Provenance
  import opened Recorder

  // ---- the order of slugs ---------------------------------------------------

  lemma {:induction false} LexTotal(a: string, b: string)
    ensures LexLeq(a, b) || LexLeq(b, a)
    ensures LexLeq(a, b) && LexLeq(b, a) ==> a == b
    decreases |a|
  {
    if a != [] && b != [] && a[0] == b[0] {
      LexTotal(a[1..], b[1..]);
      assert a == [a[0]] + a[1..] && b == [b[0]] + b[1..];
    }
  }

  lemma {:induction false} LexTransitive(a: string, b: string, c: string)
    requires LexLeq(a, b) && LexLeq(b, c)
    ensures LexLeq(a, c)
    decreases |a|
  {
    if a != [] && a[0] == b[0] == c[0] { LexTransitive(a[1..], b[1..], c[1..]); }
  }

  /** The first difference is at `i`, and `a` is the smaller there. */
  ghost predicate LessAt(a: string, b: string, i: nat)
  {
    i < |a| && i < |b| && a[i] < b[i] && forall k :: 0 <= k < i ==> a[k] == b[k]
  }

  lemma LessCons(a: string, b: string)
    requires a != [] && b != []
    ensures (exists i: nat :: LessAt(a, b, i)) <==>
      a[0] < b[0] || (a[0] == b[0] && exists i: nat :: LessAt(a[1..], b[1..], i))
  {
    var c, d := a[1..], b[1..];
    if i: nat :| LessAt(a, b, i) {
      assert i > 0 ==> LessAt(c, d, i - 1);
    }
    if a[0] < b[0] { assert LessAt(a, b, 0); }
    if a[0] == b[0] {
      if i: nat :| LessAt(c, d, i) {
        assert forall k :: 0 < k <= i ==> a[k] == c[k - 1] && b[k] == d[k - 1];
        assert LessAt(a, b, i + 1);
      }
    }
  }

  lemma PrefixCons(a: string, b: string)
    requires a != [] && b != []
    ensures a <= b <==> a[0] == b[0] && a[1..] <= b[1..]
  {
    assert a == [a[0]] + a[1..] && b == [b[0]] + b[1..];
  }

  /** One slug stands before another where it is a prefix, or smaller at the first difference. */
  lemma {:induction false} LexIff(a: string, b: string)
    ensures LexLeq(a, b) <==> a <= b || exists i: nat :: LessAt(a, b, i)
    decreases |a|
  {
    hide LessAt;
    if a != [] && b != [] {
      LexIff(a[1..], b[1..]);
      LessCons(a, b);
      PrefixCons(a, b);
    } else {
      NothingLess(a, b);
    }
  }

  lemma NothingLess(a: string, b: string)
    requires a == [] || b == []
    ensures forall i: nat :: !LessAt(a, b, i)
  {
  }

  lemma SlugsOrdered()
    ensures forall a, b :: LexLeq(a, b) || LexLeq(b, a)
    ensures forall a, b :: LexLeq(a, b) && LexLeq(b, a) <==> a == b
    ensures forall a, b, c :: LexLeq(a, b) && LexLeq(b, c) ==> LexLeq(a, c)
  {
    forall a, b ensures (LexLeq(a, b) || LexLeq(b, a)) && (LexLeq(a, b) && LexLeq(b, a) ==> a == b)
    {
      LexTotal(a, b);
    }
    forall a, b, c | LexLeq(a, b) && LexLeq(b, c) ensures LexLeq(a, c)
    {
      LexTransitive(a, b, c);
    }
  }

  lemma Ordering()
    ensures Orders(SlugLeq()) && Orders(RecordLeq()) && Orders(GapLeq())
  {
    hide LexLeq;
    SlugsOrdered();
  }

  // ---- one language's part of a run -----------------------------------------

  function About(language: Language): Event -> bool { (e: Event) => e.language == language }
  function RecordOf(language: Language): Record -> bool { (r: Record) => r.language == language }
  function GapOf(language: Language): Gap -> bool { (g: Gap) => g.language == language }

  /** The events of one language, in order. */
  function OfLanguage(es: seq<Event>, language: Language): seq<Event> { Filter(es, About(language)) }

  /** One language's records after an event of it: the first is amended, or one started. */
  function AmendFirst(own: seq<Record>, e: Event): seq<Record>
  {
    if own == [] then [Amend(NewRecord(e.language), e)] else [Amend(own[0], e)] + own[1..]
  }

  /** The records its own events give a language: none, or one. */
  function Tell(es: seq<Event>, language: Language): seq<Record>
  {
    if es == [] then []
    else
      var n := |es| - 1;
      var sofar := Tell(es[..n], language);
      if es[n].language != language || es[n].NoProvider? then sofar
      else AmendFirst(sofar, es[n])
  }

  function TellGaps(es: seq<Event>, language: Language, required: bool): seq<Gap>
  {
    if es == [] then []
    else
      var n := |es| - 1;
      TellGaps(es[..n], language, required)
      + if es[n].language == language && es[n].NoProvider? then [Gap(language, es[n].detail, required)] else []
  }

  lemma {:induction false} TellOne(es: seq<Event>, language: Language)
    ensures |Tell(es, language)| <= 1
    ensures forall r :: r in Tell(es, language) ==> r.language == language
  {
    if es != [] { TellOne(es[..|es| - 1], language); }
  }

  lemma {:induction false} AddToSelects(rs: seq<Record>, e: Event, language: Language)
    ensures var own := Filter(rs, RecordOf(language));
      Filter(AddTo(rs, e), RecordOf(language)) == if e.language == language then AmendFirst(own, e) else own
  {
    var p := RecordOf(language);
    hide Filter, Amend;
    AddToUnfold(rs, e);
    var added := AddTo(rs, e);
    FilterUnfold(added, p);
    if rs == [] {
      FilterEmpty(p);
    } else {
      FilterUnfold(rs, p);
      AmendKeepsLanguage(rs[0], e);
      if rs[0].language != e.language {
        AddToSelects(rs[1..], e, language);
      }
    }
  }

  lemma AmendKeepsLanguage(r: Record, e: Event)
    ensures Amend(r, e).language == r.language
  {
  }

  lemma AddToUnfold(rs: seq<Record>, e: Event)
    ensures var added := AddTo(rs, e);
      && added != []
      && (rs == [] ==> added[0] == Amend(NewRecord(e.language), e) && added[0].language == e.language && added[1..] == [])
      && (rs != [] && rs[0].language == e.language ==> added[0] == Amend(rs[0], e) && added[1..] == rs[1..])
      && (rs != [] && rs[0].language != e.language ==> added[0] == rs[0] && added[1..] == AddTo(rs[1..], e))
  {
  }

  /** After any run the recorder holds, for each language, exactly what that language's own events
      give: at most one record, and its gaps in order, flagged by the required set. */
  lemma {:induction false} RunTells(mode: Mode, required: seq<Language>, es: seq<Event>, language: Language)
    ensures var s := Run(Start(mode, required), es);
      && s.mode == mode && s.required == required
      && Filter(s.languages, RecordOf(language)) == Tell(es, language)
      && Filter(s.gaps, GapOf(language)) == TellGaps(es, language, language in required)
  {
    hide Filter, Amend, AddTo;
    if es == [] {
      FilterEmpty(RecordOf(language));
      FilterEmpty(GapOf(language));
    } else {
      var n := |es| - 1;
      var before := Run(Start(mode, required), es[..n]);
      RunTells(mode, required, es[..n], language);
      TellOne(es[..n], language);
      AddToSelects(before.languages, es[n], language);
      if es[n].NoProvider? {
        FilterSnoc(before.gaps, Gap(es[n].language, es[n].detail, es[n].language in required), GapOf(language));
      }
    }
  }

  lemma FilterEmpty<T(!new)>(p: T -> bool)
    ensures Filter([], p) == []
  {
  }

  lemma TellSnoc(es: seq<Event>, e: Event, language: Language, required: bool)
    ensures Tell(es + [e], language) ==
      if e.language != language || e.NoProvider? then Tell(es, language) else AmendFirst(Tell(es, language), e)
    ensures TellGaps(es + [e], language, required) ==
      if e.language == language && e.NoProvider?
      then TellGaps(es, language, required) + [Gap(language, e.detail, required)]
      else TellGaps(es, language, required)
  {
    var all := es + [e];
    assert all[..|es|] == es && all[|es|] == e;
    assert TellGaps(es, language, required) + [] == TellGaps(es, language, required);
  }

  /** Only its own events matter to a language. */
  lemma {:induction false} TellOwn(es: seq<Event>, language: Language, required: bool)
    ensures Tell(es, language) == Tell(OfLanguage(es, language), language)
    ensures TellGaps(es, language, required) == TellGaps(OfLanguage(es, language), language, required)
  {
    hide Filter, AmendFirst;
    if es == [] {
      FilterEmpty(About(language));
    } else {
      var init, e := es[..|es| - 1], es[|es| - 1];
      assert es == init + [e];
      TellOwn(init, language, required);
      FilterSnoc(init, e, About(language));
      var own := OfLanguage(init, language);
      assert OfLanguage(es, language) == if e.language == language then own + [e] else own;
      hide Tell, TellGaps;
      TellSnoc(init, e, language, required);
      TellSnoc(own, e, language, required);
    }
  }

  // ---- interleavings --------------------------------------------------------

  lemma {:induction false} FilterSame<T(!new)>(xs: seq<T>, p: T -> bool, q: T -> bool)
    requires forall x :: p(x) == q(x)
    ensures Filter(xs, p) == Filter(xs, q)
  {
    if xs != [] { FilterSame(xs[1..], p, q); }
  }

  lemma RecordsAgree(a: seq<Record>, b: seq<Record>)
    requires forall l :: Filter(a, RecordOf(l)) == Filter(b, RecordOf(l))
    ensures Sort(a, RecordLeq()) == Sort(b, RecordLeq())
  {
    hide Filter, Sort, LexLeq;
    var leq := RecordLeq();
    Ordering();
    SlugsOrdered();
    forall x: Record ensures Filter(Sort(a, leq), SameKey(x, leq)) == Filter(Sort(b, leq), SameKey(x, leq))
    {
      var p := SameKey(x, leq);
      SortStable(a, leq, p);
      SortStable(b, leq, p);
      FilterSame(a, p, RecordOf(x.language));
      FilterSame(b, p, RecordOf(x.language));
    }
    SortSorts(a, leq);
    SortSorts(b, leq);
    SortedIsDetermined(Sort(a, leq), Sort(b, leq), leq);
  }

  lemma GapsAgree(a: seq<Gap>, b: seq<Gap>)
    requires forall l :: Filter(a, GapOf(l)) == Filter(b, GapOf(l))
    ensures Sort(a, GapLeq()) == Sort(b, GapLeq())
  {
    hide Filter, Sort, LexLeq;
    var leq := GapLeq();
    Ordering();
    SlugsOrdered();
    forall x: Gap ensures Filter(Sort(a, leq), SameKey(x, leq)) == Filter(Sort(b, leq), SameKey(x, leq))
    {
      var p := SameKey(x, leq);
      SortStable(a, leq, p);
      SortStable(b, leq, p);
      FilterSame(a, p, GapOf(x.language));
      FilterSame(b, p, GapOf(x.language));
    }
    SortSorts(a, leq);
    SortSorts(b, leq);
    SortedIsDetermined(Sort(a, leq), Sort(b, leq), leq);
  }

  /** Sorted with no repeats. */
  ghost predicate Strict(xs: seq<Language>)
  {
    forall i, j :: 0 <= i < j < |xs| ==> LexLeq(xs[i], xs[j]) && xs[i] != xs[j]
  }

  lemma {:induction false} DedupSorted(xs: seq<Language>)
    requires Sorted(xs, SlugLeq())
    ensures Strict(Dedup(xs))
    ensures forall x :: x in Dedup(xs) <==> x in xs
  {
    hide LexLeq;
    if |xs| > 1 {
      DedupSorted(xs[1..]);
      SlugsOrdered();
      var rest := Dedup(xs[1..]);
      assert xs == [xs[0]] + xs[1..];
      assert xs[0] == xs[1] ==> xs[0] in xs[1..];
      if xs[0] != xs[1] {
        forall j | 0 <= j < |rest| ensures LexLeq(xs[0], rest[j]) && xs[0] != rest[j]
        {
          assert rest[j] in xs[1..];
          var i :| 1 <= i < |xs| && xs[i] == rest[j];
          assert SlugLeq()(xs[1], xs[i]) || i == 1;
          assert SlugLeq()(xs[0], xs[1]);
        }
      }
    }
  }

  lemma MembersCarry(a: seq<Language>, b: seq<Language>)
    requires forall x :: x in a ==> x in b
    ensures a != [] ==> b != []
  {
    if a != [] { assert a[0] in b; }
  }

  lemma {:induction false} StrictIsDetermined(a: seq<Language>, b: seq<Language>)
    requires Strict(a) && Strict(b) && forall x :: x in a <==> x in b
    ensures a == b
    decreases |a|
  {
    hide LexLeq;
    if a == [] || b == [] {
      MembersCarry(a, b);
      MembersCarry(b, a);
    } else {
      SlugsOrdered();
      assert a[0] in b && b[0] in a;
      assert LexLeq(a[0], b[0]) && LexLeq(b[0], a[0]);
      forall x ensures x in a[1..] <==> x in b[1..]
      {
        assert x in a <==> x == a[0] || x in a[1..];
        assert x in b <==> x == b[0] || x in b[1..];
      }
      StrictIsDetermined(a[1..], b[1..]);
      assert a == [a[0]] + a[1..] && b == [b[0]] + b[1..];
    }
  }

  lemma RequiredAgree(a: seq<Language>, b: seq<Language>)
    requires forall l :: l in a <==> l in b
    ensures Dedup(Sort(a, SlugLeq())) == Dedup(Sort(b, SlugLeq()))
  {
    hide Sort, Dedup, LexLeq;
    Ordering();
    SortKeeps(a, SlugLeq());
    SortKeeps(b, SlugLeq());
    SortSorts(a, SlugLeq());
    SortSorts(b, SlugLeq());
    DedupSorted(Sort(a, SlugLeq()));
    DedupSorted(Sort(b, SlugLeq()));
    StrictIsDetermined(Dedup(Sort(a, SlugLeq())), Dedup(Sort(b, SlugLeq())));
  }

  /** Two recordings that agree language by language, and on the set of required languages, finish
      into the same proof, however their events interleave and in whatever order and however often
      the required languages were listed. */
  lemma InterleavingIsInvisible(mode: Mode, required: seq<Language>, required': seq<Language>,
                                es: seq<Event>, fs: seq<Event>)
    requires forall l :: l in required <==> l in required'
    requires forall l :: OfLanguage(es, l) == OfLanguage(fs, l)
    ensures Finish(Run(Start(mode, required), es)) == Finish(Run(Start(mode, required'), fs))
  {
    hide Filter, Sort, Dedup, Run, Tell, TellGaps, OfLanguage;
    var a, b := Run(Start(mode, required), es), Run(Start(mode, required'), fs);
    forall l
      ensures Filter(a.languages, RecordOf(l)) == Filter(b.languages, RecordOf(l))
      ensures Filter(a.gaps, GapOf(l)) == Filter(b.gaps, GapOf(l))
    {
      RunTells(mode, required, es, l);
      RunTells(mode, required', fs, l);
      TellOwn(es, l, l in required);
      TellOwn(fs, l, l in required);
    }
    RunTells(mode, required, es, "");
    RunTells(mode, required', fs, "");
    RecordsAgree(a.languages, b.languages);
    GapsAgree(a.gaps, b.gaps);
    RequiredAgree(required, required');
  }

  // ---- what a record says ---------------------------------------------------

  function Attempts(es: seq<Event>, language: Language): nat
  {
    |Filter(es, (e: Event) => e.Attempted? && e.language == language)|
  }

  function Successes(es: seq<Event>, language: Language): seq<Event>
  {
    Filter(es, (e: Event) => e.Enriched? && e.language == language)
  }

  function Failures(es: seq<Event>, language: Language): seq<Event>
  {
    Filter(es, (e: Event) => e.Failed? && e.language == language)
  }

  function Probes(es: seq<Event>, language: Language): seq<Event>
  {
    Filter(es, (e: Event) => e.Probed? && e.language == language)
  }

  function SumRelations(es: seq<Event>): nat
  {
    if es == [] then 0 else SumRelations(es[..|es| - 1]) + if es[|es| - 1].Enriched? then es[|es| - 1].relations else 0
  }

  /** The record counts the language's events, keeps every failure in order, and carries the last
      probe. */
  ghost predicate Faithful(r: Record, es: seq<Event>, language: Language)
  {
    && r.language == language
    && r.attempted == Attempts(es, language)
    && r.enriched == |Successes(es, language)|
    && r.emitted == SumRelations(Successes(es, language))
    && r.failed == |Failures(es, language)| == |r.failures|
    && (forall i :: 0 <= i < r.failed ==> var e := Failures(es, language)[i];
          e.Failed? && r.failures[i] == FileFailure(e.file, e.reason))
    && ProbedLast(r, Probes(es, language))
  }

  ghost predicate ProbedLast(r: Record, probes: seq<Event>)
  {
    if probes == [] then r.provider.None? && r.version.None? && r.probed == {} && r.missing == {}
    else
      var e := probes[|probes| - 1];
      && e.Probed? && r.provider == Some(e.probe.provider) && r.version == e.probe.version
      && r.probed == e.probe.probed && r.missing == e.probe.expected - e.probe.probed
  }

  lemma SelectionsSnoc(es: seq<Event>, e: Event, l: Language)
    ensures Attempts(es + [e], l) == Attempts(es, l) + if e.Attempted? && e.language == l then 1 else 0
    ensures Successes(es + [e], l) == if e.Enriched? && e.language == l then Successes(es, l) + [e] else Successes(es, l)
    ensures Failures(es + [e], l) == if e.Failed? && e.language == l then Failures(es, l) + [e] else Failures(es, l)
    ensures Probes(es + [e], l) == if e.Probed? && e.language == l then Probes(es, l) + [e] else Probes(es, l)
  {
    hide Filter;
    FilterSnoc(es, e, (x: Event) => x.Attempted? && x.language == l);
    FilterSnoc(es, e, (x: Event) => x.Enriched? && x.language == l);
    FilterSnoc(es, e, (x: Event) => x.Failed? && x.language == l);
    FilterSnoc(es, e, (x: Event) => x.Probed? && x.language == l);
  }

  lemma SumSnoc(es: seq<Event>, e: Event)
    ensures SumRelations(es + [e]) == SumRelations(es) + if e.Enriched? then e.relations else 0
  {
    assert (es + [e])[..|es|] == es;
  }

  lemma AmendFaithful(r: Record, es: seq<Event>, e: Event)
    requires Faithful(r, es, e.language) && !e.NoProvider?
    ensures Faithful(Amend(r, e), es + [e], e.language)
  {
    hide Filter, Attempts, Successes, Failures, Probes, SumRelations;
    SelectionsSnoc(es, e, e.language);
    SumSnoc(Successes(es, e.language), e);
    match e {
      case Probed(_, _) =>
      case Attempted(_) =>
      case Enriched(_, _) =>
      case Failed(_, _, _) =>
    }
  }

  lemma OthersFaithful(r: Record, es: seq<Event>, e: Event, l: Language)
    requires Faithful(r, es, l) && (e.language != l || e.NoProvider?)
    ensures Faithful(r, es + [e], l)
  {
    hide Filter, Attempts, Successes, Failures, Probes, SumRelations;
    SelectionsSnoc(es, e, l);
  }

  /** A language has a record exactly when it was mentioned other than by a gap, and the record is
      faithful. */
  lemma {:induction false} TellMeaning(es: seq<Event>, language: Language)
    ensures Tell(es, language) == [] <==>
      forall i :: 0 <= i < |es| ==> es[i].language != language || es[i].NoProvider?
    ensures Tell(es, language) != [] ==> Faithful(Tell(es, language)[0], es, language)
    ensures Tell(es, language) == [] ==> Faithful(NewRecord(language), es, language)
  {
    hide Amend, Faithful;
    if es == [] {
      NothingFaithful(language);
    } else {
      var n := |es| - 1;
      TellMeaning(es[..n], language);
      assert es == es[..n] + [es[n]];
      var sofar := Tell(es[..n], language);
      var r := if sofar == [] then NewRecord(language) else sofar[0];
      if es[n].language != language || es[n].NoProvider? {
        OthersFaithful(r, es[..n], es[n], language);
      } else {
        AmendFaithful(r, es[..n], es[n]);
      }
    }
  }

  lemma NothingFaithful(language: Language)
    ensures Faithful(NewRecord(language), [], language)
  {
  }

  // ---- the gate -------------------------------------------------------------

  lemma {:induction false} RecordForFirst(rs: seq<Record>, l: Language)
    ensures RecordFor(rs, l) == var own := Filter(rs, RecordOf(l)); if own == [] then None else Some(own[0])
  {
    if rs != [] { RecordForFirst(rs[1..], l); }
  }

  /** Gap `i` is the first flagged one of the language. */
  ghost predicate FirstFlagged(gs: seq<Gap>, l: Language, i: nat)
  {
    && i < |gs| && gs[i].language == l && gs[i].required
    && forall k :: 0 <= k < i ==> !(gs[k].language == l && gs[k].required)
  }

  lemma {:induction false} FlaggedGapMeaning(gs: seq<Gap>, l: Language)
    ensures FlaggedGap(gs, l).Some? <==> exists i :: 0 <= i < |gs| && gs[i].language == l && gs[i].required
    ensures FlaggedGap(gs, l).Some? ==> exists i: nat :: FirstFlagged(gs, l, i) && FlaggedGap(gs, l).value == gs[i]
  {
    if gs != [] {
      FlaggedGapMeaning(gs[1..], l);
      var rest := gs[1..];
      assert forall i :: 0 < i < |gs| ==> gs[i] == rest[i - 1];
      if gs[0].language == l && gs[0].required {
        assert FirstFlagged(gs, l, 0);
      } else if FlaggedGap(gs, l).Some? {
        var i: nat :| FirstFlagged(rest, l, i) && FlaggedGap(rest, l).value == rest[i];
        assert FirstFlagged(gs, l, i + 1);
      }
    }
  }

  /** The gate's conditions on one language. */
  ghost predicate WellEnriched(p: Proof, l: Language)
  {
    var r := RecordFor(p.languages, l);
    r.Some? && r.value.provider.Some? && MeetsMinimum(r.value) && r.value.failed == 0
  }

  lemma JudgeMeaning(p: Proof, l: Language)
    ensures JudgeGap(p, l) + JudgeRecord(p, l) == [] <==>
      && (forall i :: 0 <= i < |p.gaps| && p.gaps[i].language == l ==> !p.gaps[i].required)
      && (WellEnriched(p, l) || (RecordFor(p.languages, l).None? && HasGap(p.gaps, l)))
  {
    FlaggedGapMeaning(p.gaps, l);
    assert JudgeGap(p, l) + JudgeRecord(p, l) == [] <==> JudgeGap(p, l) == [] && JudgeRecord(p, l) == [];
  }

  lemma {:induction false} ViolationsMeaning(p: Proof, required: seq<Language>, v: Violation)
    ensures v in Violations(p, required) <==>
      exists i :: 0 <= i < |required| && v in JudgeGap(p, required[i]) + JudgeRecord(p, required[i])
  {
    hide JudgeGap, JudgeRecord;
    if required != [] {
      var n := |required| - 1;
      var init := required[..n];
      ViolationsMeaning(p, init, v);
      if i :| 0 <= i < |init| && v in JudgeGap(p, init[i]) + JudgeRecord(p, init[i]) {
        assert v in JudgeGap(p, required[i]) + JudgeRecord(p, required[i]);
      }
      if i :| 0 <= i < |required| && v in JudgeGap(p, required[i]) + JudgeRecord(p, required[i]) {
        assert i < n ==> v in JudgeGap(p, init[i]) + JudgeRecord(p, init[i]);
      }
    }
  }

  lemma NoViolations(p: Proof, required: seq<Language>)
    ensures Violations(p, required) == [] <==>
      forall l :: l in required ==> JudgeGap(p, l) + JudgeRecord(p, l) == []
  {
    hide JudgeGap, JudgeRecord, Violations;
    var vs := Violations(p, required);
    if vs != [] {
      ViolationsMeaning(p, required, vs[0]);
      assert vs[0] in vs;
      var i :| 0 <= i < |required| && vs[0] in JudgeGap(p, required[i]) + JudgeRecord(p, required[i]);
      assert required[i] in required && JudgeGap(p, required[i]) + JudgeRecord(p, required[i]) != [];
    }
    forall l | l in required && JudgeGap(p, l) + JudgeRecord(p, l) != [] ensures vs != []
    {
      var i :| 0 <= i < |required| && required[i] == l;
      var v := (JudgeGap(p, l) + JudgeRecord(p, l))[0];
      assert v in JudgeGap(p, required[i]) + JudgeRecord(p, required[i]);
      ViolationsMeaning(p, required, v);
    }
  }

  lemma ViolationsOf(p: Proof, required: seq<Language>, v: Violation)
    ensures v in Violations(p, required) <==>
      v.language in required && v in JudgeGap(p, v.language) + JudgeRecord(p, v.language)
  {
    hide Violations, MeetsMinimum, HasGap;
    ViolationsMeaning(p, required, v);
    forall l | v in JudgeGap(p, l) + JudgeRecord(p, l) ensures l == v.language
    {
    }
    if v.language in required {
      var i :| 0 <= i < |required| && required[i] == v.language;
    }
  }

  /** What each report means, and that none goes unreported. */
  lemma ReportMeaning(p: Proof, v: Violation)
    ensures v in Violations(p, p.required) <==>
      && v.language in p.required
      && var r := RecordFor(p.languages, v.language);
         match v
         case MissingRequiredProvider(l) => (r.None? && !HasGap(p.gaps, l)) || (r.Some? && r.value.provider.None?)
         case BelowMinimumCapabilities(_, missing) =>
           r.Some? && r.value.provider.Some? && missing == FLOOR - r.value.probed && !MeetsMinimum(r.value)
         case FileFailures(_, n) => r.Some? && r.value.failed == n > 0
         case UnresolvedRequiredGap(l, detail) =>
           exists i: nat :: FirstFlagged(p.gaps, l, i) && p.gaps[i].detail == detail
  {
    hide Violations, HasGap, RecordFor, FlaggedGap, MeetsMinimum;
    ViolationsOf(p, p.required, v);
    FlaggedGapMeaning(p.gaps, v.language);
    var a, b := JudgeGap(p, v.language), JudgeRecord(p, v.language);
    assert v in a + b <==> v in a || v in b;
    match v {
      case MissingRequiredProvider(_) =>
      case BelowMinimumCapabilities(_, _) =>
      case FileFailures(_, _) =>
      case UnresolvedRequiredGap(_, _) =>
    }
  }

  /** Nothing about a required language speaks against citing the record. */
  ghost predicate Deserves(p: Proof)
  {
    forall l :: l in p.required ==> !HasGap(p.gaps, l) && WellEnriched(p, l)
  }

  ghost predicate HasFlaggedGap(p: Proof, l: Language)
  {
    exists i :: 0 <= i < |p.gaps| && p.gaps[i].language == l && p.gaps[i].required
  }

  /** Some required language has a gap, yet none has a flagged one, and each is properly enriched or
      has nothing but its gaps. */
  ghost predicate Fooled(p: Proof)
  {
    && (exists l :: l in p.required && HasGap(p.gaps, l))
    && forall l :: l in p.required ==>
         && !HasFlaggedGap(p, l)
         && (WellEnriched(p, l) || (RecordFor(p.languages, l).None? && HasGap(p.gaps, l)))
  }

  /** The gate passes exactly the records that deserve it, and those that fool it: on any record,
      its verdict is right if and only if the record does not. */
  lemma GateIsExactIff(p: Proof)
    ensures Violations(p, p.required) == [] <==> Deserves(p) || Fooled(p)
    ensures !(Deserves(p) && Fooled(p))
    ensures (Violations(p, p.required) == [] <==> Deserves(p)) <==> !Fooled(p)
  {
    hide Violations, JudgeGap, JudgeRecord;
    NoViolations(p, p.required);
    forall l
      ensures JudgeGap(p, l) + JudgeRecord(p, l) == [] <==>
        && !HasFlaggedGap(p, l)
        && (WellEnriched(p, l) || (RecordFor(p.languages, l).None? && HasGap(p.gaps, l)))
      ensures HasFlaggedGap(p, l) ==> HasGap(p.gaps, l)
    {
      JudgeMeaning(p, l);
    }
    hide HasFlaggedGap, HasGap, WellEnriched;
  }

  /** A gap's flag says whether its language is required. */
  ghost predicate Flagged(p: Proof)
  {
    forall i :: 0 <= i < |p.gaps| ==> (p.gaps[i].required <==> p.gaps[i].language in p.required)
  }

  /** A record whose gaps are flagged rightly fools nobody. */
  lemma GateIsExact(p: Proof)
    requires Flagged(p)
    ensures !Fooled(p)
    ensures Violations(p, p.required) == [] <==> Deserves(p)
  {
    hide Violations, WellEnriched;
    GateIsExactIff(p);
  }

  /** An unflagged gap for a required language, and nothing else about it, does fool the gate. */
  lemma UnflaggedGapPasses(mode: Mode, l: Language, detail: string)
    ensures var p := Proof(mode, [l], [], [Gap(l, detail, false)]);
      Violations(p, p.required) == [] && Fooled(p) && !Deserves(p) && HasGap(p.gaps, l) && !WellEnriched(p, l)
  {
    var p := Proof(mode, [l], [], [Gap(l, detail, false)]);
    assert p.gaps[0].language == l && l in p.required;
    GateIsExactIff(p);
  }

  // ---- the gate on a recording ----------------------------------------------

  /** What the recorder finishes into, language by language. */
  lemma FinishedTells(mode: Mode, required: seq<Language>, es: seq<Event>, l: Language)
    ensures var p := Finish(Run(Start(mode, required), es));
      && (l in p.required <==> l in required)
      && Filter(p.languages, RecordOf(l)) == Tell(es, l)
      && Filter(p.gaps, GapOf(l)) == TellGaps(es, l, l in required)
  {
    hide Filter, Sort, Dedup, Run, Tell, TellGaps, LexLeq;
    var s := Run(Start(mode, required), es);
    RunTells(mode, required, es, l);
    Ordering();
    SlugsOrdered();
    SortStable(s.languages, RecordLeq(), RecordOf(l));
    SortStable(s.gaps, GapLeq(), GapOf(l));
    SortKeeps(required, SlugLeq());
    SortSorts(required, SlugLeq());
    DedupSorted(Sort(required, SlugLeq()));
  }

  lemma {:induction false} TellGapsMeaning(es: seq<Event>, l: Language, required: bool)
    ensures forall g :: g in TellGaps(es, l, required) ==> g.language == l && g.required == required
    ensures TellGaps(es, l, required) == [] <==>
      forall i :: 0 <= i < |es| && es[i].language == l ==> !es[i].NoProvider?
  {
    if es != [] { TellGapsMeaning(es[..|es| - 1], l, required); }
  }

  /** The invariant the gate rests on: a recorder flags its gaps rightly. */
  lemma RecorderFlags(mode: Mode, required: seq<Language>, es: seq<Event>)
    ensures Flagged(Finish(Run(Start(mode, required), es)))
  {
    hide Finish, Run, TellGaps, Tell;
    var p := Finish(Run(Start(mode, required), es));
    forall i | 0 <= i < |p.gaps| ensures p.gaps[i].required <==> p.gaps[i].language in p.required
    {
      var g := p.gaps[i];
      FinishedTells(mode, required, es, g.language);
      assert g in Filter(p.gaps, GapOf(g.language));
      TellGapsMeaning(es, g.language, g.language in required);
    }
  }

  /** What a finished proof says of a language is what its events were. */
  lemma FinishedRecordIsFaithful(mode: Mode, required: seq<Language>, es: seq<Event>, l: Language)
    ensures var r := RecordFor(Finish(Run(Start(mode, required), es)).languages, l);
      && (r.None? <==> forall i :: 0 <= i < |es| ==> es[i].language != l || es[i].NoProvider?)
      && (r.Some? ==> Faithful(r.value, es, l))
  {
    hide Finish, Run, Tell, Faithful, TellGaps;
    FinishedTells(mode, required, es, l);
    RecordForFirst(Finish(Run(Start(mode, required), es)).languages, l);
    TellMeaning(es, l);
  }

  /** Every language of a finished recording has one entry. */
  lemma EntriesAreUnique(mode: Mode, required: seq<Language>, es: seq<Event>, l: Language)
    ensures |Filter(Finish(Run(Start(mode, required), es)).languages, RecordOf(l))| <= 1
  {
    FinishedTells(mode, required, es, l);
    TellOne(es, l);
  }

  /** What the events of a run must be for its language to be citable. */
  ghost predicate CitableRun(es: seq<Event>, l: Language)
  {
    && (forall i :: 0 <= i < |es| && es[i].language == l ==> !es[i].NoProvider? && !es[i].Failed?)
    && var probes := Probes(es, l);
       probes != [] && probes[|probes| - 1].Probed? && FLOOR <= probes[|probes| - 1].probe.probed
  }

  lemma SelectedNone(es: seq<Event>, l: Language)
    ensures Failures(es, l) == [] <==> forall i :: 0 <= i < |es| && es[i].language == l ==> !es[i].Failed?
    ensures Probes(es, l) != [] ==> exists i :: 0 <= i < |es| && es[i].language == l && es[i].Probed?
  {
    var fs, ps := Failures(es, l), Probes(es, l);
    assert fs != [] ==> fs[0] in fs;
    assert ps != [] ==> ps[0] in ps;
    assert forall i :: 0 <= i < |es| ==> es[i] in es;
    if ps != [] {
      assert ps[0] in es && ps[0].Probed? && ps[0].language == l;
      var i :| 0 <= i < |es| && es[i] == ps[0];
      assert es[i].language == l && es[i].Probed?;
    }
  }

  lemma FinishedLanguage(mode: Mode, required: seq<Language>, es: seq<Event>, l: Language)
    ensures var p := Finish(Run(Start(mode, required), es));
      (!HasGap(p.gaps, l) && WellEnriched(p, l)) == CitableRun(es, l)
  {
    hide Finish, Run, TellGaps, Tell, Failures, Probes, Attempts, Successes, SumRelations;
    var p := Finish(Run(Start(mode, required), es));
    FinishedTells(mode, required, es, l);
    FinishedGaps(mode, required, es, l);
    RecordForFirst(p.languages, l);
    TellMeaning(es, l);
    SelectedNone(es, l);
  }

  lemma FinishedGaps(mode: Mode, required: seq<Language>, es: seq<Event>, l: Language)
    ensures HasGap(Finish(Run(Start(mode, required), es)).gaps, l) <==>
      exists i :: 0 <= i < |es| && es[i].language == l && es[i].NoProvider?
  {
    hide Finish, Run, TellGaps, Tell;
    var p := Finish(Run(Start(mode, required), es));
    FinishedTells(mode, required, es, l);
    TellGapsMeaning(es, l, l in required);
    var own := Filter(p.gaps, GapOf(l));
    assert own != [] ==> own[0] in own;
    if i :| 0 <= i < |p.gaps| && p.gaps[i].language == l {
      assert p.gaps[i] in own;
    }
  }

  /** For any recording the gate passes exactly when, for every required language, no gap and no
      failed file was recorded and the last probe met the capability floor. */
  lemma RecordedGateIsExact(mode: Mode, required: seq<Language>, es: seq<Event>)
    ensures var p := Finish(Run(Start(mode, required), es));
      Violations(p, p.required) == [] <==> forall l :: l in required ==> CitableRun(es, l)
  {
    hide Finish, Run, Violations, CitableRun, WellEnriched, HasGap;
    var p := Finish(Run(Start(mode, required), es));
    RecorderFlags(mode, required, es);
    GateIsExact(p);
    forall l
      ensures l in p.required <==> l in required
      ensures (!HasGap(p.gaps, l) && WellEnriched(p, l)) == CitableRun(es, l)
    {
      FinishedTells(mode, required, es, l);
      FinishedLanguage(mode, required, es, l);
    }
  }

  /** After a gap or a failed file for a required language, no continuation of the run passes. */
  lemma RefusalIsFinal(mode: Mode, required: seq<Language>, es: seq<Event>, more: seq<Event>, i: nat)
    requires i < |es| && es[i].language in required && (es[i].NoProvider? || es[i].Failed?)
    ensures var p := Finish(Run(Start(mode, required), es + more)); Violations(p, p.required) != []
  {
    hide Finish, Run, Violations, Probes;
    RecordedGateIsExact(mode, required, es + more);
    assert (es + more)[i] == es[i];
    assert !CitableRun(es + more, es[i].language);
  }

  // ---- totals ---------------------------------------------------------------

  /** `total_relations`. */
  function Total(rs: seq<Record>): nat
  {
    if rs == [] then 0 else rs[0].emitted + Total(rs[1..])
  }

  lemma {:induction false} InsertTotal(x: Record, rs: seq<Record>)
    ensures Total(Insert(x, rs, RecordLeq())) == x.emitted + Total(rs)
  {
    hide LexLeq;
    if rs == [] || RecordLeq()(x, rs[0]) {
      assert ([x] + rs)[1..] == rs;
    } else {
      InsertTotal(x, rs[1..]);
      var rest := Insert(x, rs[1..], RecordLeq());
      assert ([rs[0]] + rest)[1..] == rest;
    }
  }

  lemma {:induction false} SortTotal(rs: seq<Record>)
    ensures Total(Sort(rs, RecordLeq())) == Total(rs)
  {
    if rs != [] {
      SortTotal(rs[1..]);
      InsertTotal(rs[0], Sort(rs[1..], RecordLeq()));
    }
  }

  lemma {:induction false} AddToTotal(rs: seq<Record>, e: Event)
    ensures Total(AddTo(rs, e)) == Total(rs) + if e.Enriched? then e.relations else 0
  {
    if rs == [] {
      assert AddTo(rs, e)[1..] == [];
    } else if rs[0].language == e.language {
      assert AddTo(rs, e)[1..] == rs[1..];
    } else {
      AddToTotal(rs[1..], e);
      var rest := AddTo(rs[1..], e);
      assert ([rs[0]] + rest)[1..] == rest;
    }
  }

  lemma {:induction false} RunTotal(mode: Mode, required: seq<Language>, es: seq<Event>)
    ensures Total(Run(Start(mode, required), es).languages) == SumRelations(es)
  {
    hide AddTo;
    if es != [] {
      var n := |es| - 1;
      RunTotal(mode, required, es[..n]);
      AddToTotal(Run(Start(mode, required), es[..n]).languages, es[n]);
    }
  }

  /** No relation is lost or counted twice: the proof's total is the sum over the calls. */
  lemma TotalIsConserved(mode: Mode, required: seq<Language>, es: seq<Event>)
    ensures Total(Finish(Run(Start(mode, required), es)).languages) == SumRelations(es)
  {
    RunTotal(mode, required, es);
    SortTotal(Run(Start(mode, required), es).languages);
  }

  /** `has_failures`. */
  predicate HasFailures(p: Proof)
  {
    p.gaps != [] || exists i :: 0 <= i < |p.languages| && p.languages[i].failed > 0
  }

  /** A finished recording shows a failure exactly when one was recorded, for any language. */
  lemma HasFailuresMeaning(mode: Mode, required: seq<Language>, es: seq<Event>)
    ensures HasFailures(Finish(Run(Start(mode, required), es))) <==>
      exists i :: 0 <= i < |es| && (es[i].NoProvider? || es[i].Failed?)
  {
    hide Finish, Run, TellGaps, Tell, Failures, Probes, Attempts, Successes, SumRelations;
    var p := Finish(Run(Start(mode, required), es));
    if p.gaps != [] {
      assert HasGap(p.gaps, p.gaps[0].language);
      FinishedGaps(mode, required, es, p.gaps[0].language);
    }
    if i :| 0 <= i < |p.languages| && p.languages[i].failed > 0 {
      var r := p.languages[i];
      assert ShowsFailure(p.languages, r.language);
      FailedRecord(mode, required, es, r.language);
    }
    if i :| 0 <= i < |es| && (es[i].NoProvider? || es[i].Failed?) {
      FinishedGaps(mode, required, es, es[i].language);
      FailedRecord(mode, required, es, es[i].language);
    }
  }

  predicate ShowsFailure(rs: seq<Record>, l: Language)
  {
    exists i :: 0 <= i < |rs| && rs[i].language == l && rs[i].failed > 0
  }

  lemma FailedIsSelected(rs: seq<Record>, l: Language)
    ensures ShowsFailure(rs, l) <==> ShowsFailure(Filter(rs, RecordOf(l)), l)
  {
    var own := Filter(rs, RecordOf(l));
    if i :| 0 <= i < |rs| && rs[i].language == l && rs[i].failed > 0 {
      assert rs[i] in own;
    }
    if i :| 0 <= i < |own| && own[i].language == l && own[i].failed > 0 {
      assert own[i] in rs;
    }
  }

  lemma FailedRecord(mode: Mode, required: seq<Language>, es: seq<Event>, l: Language)
    ensures ShowsFailure(Finish(Run(Start(mode, required), es)).languages, l) <==>
      exists i :: 0 <= i < |es| && es[i].language == l && es[i].Failed?
  {
    hide Finish, Run, TellGaps, Tell, Failures, Probes, Attempts, Successes, SumRelations, Filter, ProbedLast;
    FinishedTells(mode, required, es, l);
    FailedIsSelected(Finish(Run(Start(mode, required), es)).languages, l);
    TellMeaning(es, l);
    TellOne(es, l);
    SelectedNone(es, l);
    var own := Tell(es, l);
    assert own != [] ==> own[0] in own && own[0].language == l;
  }
}
