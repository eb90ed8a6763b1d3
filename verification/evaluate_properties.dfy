/** What `evaluateCase` promises, stated against the conditions of the checks themselves
    rather than against the list of findings the model builds. */
module EvaluateProperties {
  import opened Evaluate

  /** A check that rejects outright fires: tier not allowed, order too old, patient under
      the minimum age, a forbidden flag configured true and present, or an exclusion of the
      rule present in the patient's list. */
  predicate HardCheckFires(r: RuleSet, p: Payload) {
    || p.admin.tramo !in r.admin.tramosPermitidos
    || p.admin.diasOrden > r.admin.ordenVigenciaDias
    || p.clinico.edad < r.clinico.minEdad
    || (exists i :: 0 <= i < |r.clinico.prohibidos|
          && r.clinico.prohibidos[i].1 && FlagValue(p.clinico, r.clinico.prohibidos[i].0))
    || (exists x :: x in r.clinico.exclusiones && x in p.clinico.exclusiones)
  }

  /** A check that only asks for review fires: provider outside the agreement, PAD code
      not in a non-empty list, body-mass index over the maximum, or a review rule. */
  predicate SoftCheckFires(r: RuleSet, p: Payload) {
    || (r.admin.prestadorEnConvenio && !p.admin.prestadorConvenio)
    || (|r.codigoPad| > 0 && p.admin.codigoPad !in r.codigoPad)
    || p.clinico.imc > r.clinico.maxImc
    || (exists i :: 0 <= i < |r.reviewIf| && ReviewFires(r.reviewIf[i], p.clinico))
  }

  predicate HasHard(fs: seq<Finding>) {
    exists i :: 0 <= i < |fs| && IsHard(fs[i])
  }

  lemma HasHardAppend(a: seq<Finding>, b: seq<Finding>)
    ensures HasHard(a + b) <==> HasHard(a) || HasHard(b)
  {
    if HasHard(a) {
      var i :| 0 <= i < |a| && IsHard(a[i]);
      assert (a + b)[i] == a[i];
    }
    if HasHard(a + b) {
      var i :| 0 <= i < |a + b| && IsHard((a + b)[i]);
      if i >= |a| { assert IsHard(b[i - |a|]); }
    }
    if HasHard(b) {
      var i :| 0 <= i < |b| && IsHard(b[i]);
      assert (a + b)[|a| + i] == b[i];
    }
  }

  lemma HasHardWhen(c: bool, f: Finding)
    ensures HasHard(When(c, f)) <==> c && IsHard(f)
  {
    if c { assert When(c, f)[0] == f; }
  }

  /** The status after a list of findings is the most severe of their severities. */
  lemma {:induction false} WorstIsMostSevere(fs: seq<Finding>)
    ensures Worst(fs) == if HasHard(fs) then NoCumple else if fs != [] then Revision else Cumple
  {
    if fs != [] {
      var init := fs[..|fs| - 1];
      WorstIsMostSevere(init);
      assert fs == init + [fs[|fs| - 1]];
      HasHardAppend(init, [fs[|fs| - 1]]);
    }
  }

  lemma {:induction false} FlagFindingsFire(entries: seq<(Flag, bool)>, c: ClinicalData)
    ensures FlagFindings(entries, c) != [] <==>
      exists i :: 0 <= i < |entries| && entries[i].1 && FlagValue(c, entries[i].0)
    ensures forall i :: 0 <= i < |FlagFindings(entries, c)| ==> IsHard(FlagFindings(entries, c)[i])
  {
    if entries != [] {
      var init := entries[..|entries| - 1];
      FlagFindingsFire(init, c);
      assert forall i :: 0 <= i < |init| ==> init[i] == entries[i];
    }
  }

  lemma {:induction false} ExclusionFindingsFire(labels: seq<string>, present: seq<string>)
    ensures ExclusionFindings(labels, present) != [] <==> exists x :: x in labels && x in present
    ensures forall i :: 0 <= i < |ExclusionFindings(labels, present)| ==>
      IsHard(ExclusionFindings(labels, present)[i])
  {
    if labels != [] {
      var init := labels[..|labels| - 1];
      ExclusionFindingsFire(init, present);
      assert labels == init + [labels[|labels| - 1]];
    }
  }

  lemma ReviewFindingsFire(rules: seq<ReviewRule>, c: ClinicalData)
    ensures ReviewFindings(rules, c) != [] <==> exists i :: 0 <= i < |rules| && ReviewFires(rules[i], c)
  {
    if ReviewFindings(rules, c) != [] {
      var i := FiringRule(rules, c);
    }
    if exists i :: 0 <= i < |rules| && ReviewFires(rules[i], c) {
      var i :| 0 <= i < |rules| && ReviewFires(rules[i], c);
      RuleFiresFinding(rules, c, i);
    }
  }

  /** A review reason comes from some rule that fires. */
  lemma {:induction false} FiringRule(rules: seq<ReviewRule>, c: ClinicalData) returns (i: nat)
    requires ReviewFindings(rules, c) != []
    ensures i < |rules| && ReviewFires(rules[i], c)
  {
    var init := rules[..|rules| - 1];
    if ReviewFires(rules[|rules| - 1], c) {
      i := |rules| - 1;
    } else {
      assert ReviewFindings(rules, c) == ReviewFindings(init, c) + [];
      i := FiringRule(init, c);
      assert init[i] == rules[i];
    }
  }

  /** A rule that fires gives a review reason. */
  lemma {:induction false} RuleFiresFinding(rules: seq<ReviewRule>, c: ClinicalData, i: nat)
    requires i < |rules| && ReviewFires(rules[i], c)
    ensures ReviewFindings(rules, c) != []
  {
    var init := rules[..|rules| - 1];
    if i < |rules| - 1 {
      assert init[i] == rules[i];
      RuleFiresFinding(init, c, i);
      assert |ReviewFindings(rules, c)| >= |ReviewFindings(init, c)|;
    }
  }

  lemma {:induction false} ReviewFindingsNeverReject(rules: seq<ReviewRule>, c: ClinicalData)
    ensures !HasHard(ReviewFindings(rules, c))
  {
    if rules != [] {
      var init := rules[..|rules| - 1];
      var last := rules[|rules| - 1];
      ReviewFindingsNeverReject(init, c);
      HasHardAppend(ReviewFindings(init, c), When(ReviewFires(last, c), CriterioRevision(last)));
    }
  }

  lemma AdminMatchesChecks(r: RuleSet, p: Payload)
    ensures HasHard(AdminFindings(r, p)) <==>
      p.admin.tramo !in r.admin.tramosPermitidos || p.admin.diasOrden > r.admin.ordenVigenciaDias
    ensures AdminFindings(r, p) != [] <==>
      || p.admin.tramo !in r.admin.tramosPermitidos
      || p.admin.diasOrden > r.admin.ordenVigenciaDias
      || (r.admin.prestadorEnConvenio && !p.admin.prestadorConvenio)
      || (|r.codigoPad| > 0 && p.admin.codigoPad !in r.codigoPad)
  {
    var w1 := When(p.admin.tramo !in r.admin.tramosPermitidos, TramoNoPermitido(p.admin.tramo));
    var w2 := When(r.admin.prestadorEnConvenio && !p.admin.prestadorConvenio, PrestadorFueraDeConvenio);
    var w3 := When(|r.codigoPad| > 0 && p.admin.codigoPad !in r.codigoPad, CodigoPadNoCoincide(p.admin.codigoPad));
    var w4 := When(p.admin.diasOrden > r.admin.ordenVigenciaDias, OrdenVencida(r.admin.ordenVigenciaDias));
    HasHardWhen(p.admin.tramo !in r.admin.tramosPermitidos, TramoNoPermitido(p.admin.tramo));
    HasHardWhen(r.admin.prestadorEnConvenio && !p.admin.prestadorConvenio, PrestadorFueraDeConvenio);
    HasHardWhen(|r.codigoPad| > 0 && p.admin.codigoPad !in r.codigoPad, CodigoPadNoCoincide(p.admin.codigoPad));
    HasHardWhen(p.admin.diasOrden > r.admin.ordenVigenciaDias, OrdenVencida(r.admin.ordenVigenciaDias));
    HasHardAppend(w1, w2);
    HasHardAppend(w1 + w2, w3);
    HasHardAppend(w1 + w2 + w3, w4);
  }

  lemma BoundsMatchChecks(r: RuleSet, c: ClinicalData)
    ensures HasHard(BoundFindings(r, c)) <==> c.edad < r.clinico.minEdad
    ensures BoundFindings(r, c) != [] <==> c.edad < r.clinico.minEdad || c.imc > r.clinico.maxImc
  {
    HasHardWhen(c.edad < r.clinico.minEdad, EdadBajoMinimo(r.clinico.minEdad));
    HasHardWhen(c.imc > r.clinico.maxImc, ImcSobreMaximo(r.clinico.maxImc));
    HasHardAppend(When(c.edad < r.clinico.minEdad, EdadBajoMinimo(r.clinico.minEdad)),
      When(c.imc > r.clinico.maxImc, ImcSobreMaximo(r.clinico.maxImc)));
  }

  /** The list of findings has a rejecting one exactly when a rejecting check fires. */
  lemma HardFindingsMatchChecks(r: RuleSet, p: Payload)
    ensures HasHard(Findings(r, p)) <==> HardCheckFires(r, p)
  {
    var a := AdminFindings(r, p);
    var b := BoundFindings(r, p.clinico);
    var f := FlagFindings(r.clinico.prohibidos, p.clinico);
    var e := ExclusionFindings(r.clinico.exclusiones, p.clinico.exclusiones);
    var v := ReviewFindings(r.reviewIf, p.clinico);
    AdminMatchesChecks(r, p);
    BoundsMatchChecks(r, p.clinico);
    FlagFindingsFire(r.clinico.prohibidos, p.clinico);
    ExclusionFindingsFire(r.clinico.exclusiones, p.clinico.exclusiones);
    ReviewFindingsNeverReject(r.reviewIf, p.clinico);
    if f != [] { assert IsHard(f[0]); }
    if e != [] { assert IsHard(e[0]); }
    HasHardAppend(a, b);
    HasHardAppend(a + b, f);
    HasHardAppend(a + b + f, e);
    HasHardAppend(a + b + f + e, v);
  }

  /** The list of findings is non-empty exactly when some check fires. */
  lemma FindingsMatchChecks(r: RuleSet, p: Payload)
    ensures Findings(r, p) != [] <==> HardCheckFires(r, p) || SoftCheckFires(r, p)
  {
    AdminMatchesChecks(r, p);
    BoundsMatchChecks(r, p.clinico);
    FlagFindingsFire(r.clinico.prohibidos, p.clinico);
    ExclusionFindingsFire(r.clinico.exclusiones, p.clinico.exclusiones);
    ReviewFindingsFire(r.reviewIf, p.clinico);
  }

  /** The status is the most severe one among the checks that fired: NO_CUMPLE exactly
      when a rejecting check fired, REVISION when only review checks fired, CUMPLE when
      nothing fired. A review check never lowers NO_CUMPLE. */
  lemma StatusIsMostSevere(r: RuleSet, p: Payload)
    ensures Decide(r, p).status ==
      if HardCheckFires(r, p) then NoCumple
      else if SoftCheckFires(r, p) then Revision
      else Cumple
  {
    HardFindingsMatchChecks(r, p);
    FindingsMatchChecks(r, p);
    WorstIsMostSevere(Findings(r, p));
  }

  /** When no check fires the decision is exactly CUMPLE with the sentinel reason alone,
      and only then. */
  lemma SentinelExactlyWhenNothingFires(r: RuleSet, p: Payload)
    ensures Decide(r, p) == Decision(Cumple, [Sentinel]) <==>
      !HardCheckFires(r, p) && !SoftCheckFires(r, p)
  {
    FindingsMatchChecks(r, p);
    var fs := Findings(r, p);
    if fs != [] {
      WorstIsMostSevere(fs);
    }
  }

  /** The reasons list is never empty. */
  lemma ReasonsNeverEmpty(r: RuleSet, p: Payload)
    ensures |Decide(r, p).reasons| >= 1
  {
  }

  /** CUMPLE goes with the sentinel reason alone, and the sentinel reason alone only with
      CUMPLE: no check's message equals the sentinel. */
  lemma CumpleIffSentinel(r: RuleSet, p: Payload)
    ensures Decide(r, p).status == Cumple <==> Decide(r, p).reasons == [Sentinel]
  {
    var fs := Findings(r, p);
    if fs != [] {
      WorstIsMostSevere(fs);
      MessageIsNotSentinel(fs[0]);
      assert Messages(fs)[0] == Message(fs[0]);
    }
  }

  /** Each reason is the message of the check at the same position in the run order. */
  lemma ReasonsFollowRunOrder(r: RuleSet, p: Payload, i: nat)
    requires Findings(r, p) != [] && i < |Findings(r, p)|
    ensures |Decide(r, p).reasons| == |Findings(r, p)|
    ensures Decide(r, p).reasons[i] == Message(Findings(r, p)[i])
  {
  }

  /** With no PAD codes configured, the patient's PAD code plays no part. */
  lemma CodigoPadIgnoredWhenListEmpty(r: RuleSet, p: Payload, codigo: string)
    requires |r.codigoPad| == 0
    ensures Decide(r, p) == Decide(r, p.(admin := p.admin.(codigoPad := codigo)))
  {
    var q := p.(admin := p.admin.(codigoPad := codigo));
    assert AdminFindings(r, p) == AdminFindings(r, q);
    assert Findings(r, p) == Findings(r, q);
  }

  /** A review rule whose operator is not one of the six never fires: adding it to the
      rule set changes nothing. */
  lemma UnknownOperatorNeverFires(r: RuleSet, p: Payload, rule: ReviewRule)
    requires LookupOp(rule.op).None?
    ensures Decide(r.(reviewIf := r.reviewIf + [rule]), p) == Decide(r, p)
  {
    var r' := r.(reviewIf := r.reviewIf + [rule]);
    assert (r.reviewIf + [rule])[..|r.reviewIf|] == r.reviewIf;
    assert ReviewFindings(r'.reviewIf, p.clinico) == ReviewFindings(r.reviewIf, p.clinico);
    assert Findings(r', p) == Findings(r, p);
  }
}
