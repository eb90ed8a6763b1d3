/** Worked examples: decisions of `evaluateCase` on the rule sets of the catalogue. */
module CatalogueExamples {
  import opened Evaluate
  import opened EvaluateProperties
  import opened Options
  import opened PadRules
  import opened Text

  /** An administrative record that every rule set of the catalogue accepts for the
      given PAD code: tier B, contracted provider, a ten-day-old order. */
  function GoodAdmin(codigo: string): AdminData {
    AdminData("12.345.678-5", "B", codigo, true, 10)
  }

  /** A 30-year-old with body-mass index 28, no flags and no exclusions. */
  const Healthy: ClinicalData := ClinicalData(300, 280, false, false, false, [])

  /** A compliant cholecystectomy case meets the criteria with the sentinel reason alone. */
  lemma CompliantCaseMeetsCriteria()
    ensures Decide(Colecistectomia, Payload(GoodAdmin("2501025"), Healthy))
      == Decision(Cumple, [Sentinel])
  {
    var p := Payload(GoodAdmin("2501025"), Healthy);
    AdminAccepted(p);
    NoBoundFindings(p.clinico);
    NoFlagFindings(p.clinico);
    NoExclusionFindings(p.clinico);
    assert ReviewFindings(Colecistectomia.reviewIf, p.clinico) == [] by {
      NoReviewFindings(p.clinico);
    }
  }

  lemma AdminAccepted(p: Payload)
    requires p.admin == GoodAdmin("2501025")
    ensures AdminFindings(Colecistectomia, p) == []
  {
  }

  lemma NoBoundFindings(c: ClinicalData)
    requires 180 <= c.edad && c.imc <= 400
    ensures BoundFindings(Colecistectomia, c) == []
  {
  }

  lemma NoFlagFindings(c: ClinicalData)
    requires !c.embarazo && !c.comorbilidadDescompensada && !c.alergiaAnestesiaSevera
    ensures FlagFindings(Colecistectomia.clinico.prohibidos, c) == []
  {
    NoFlagNoFinding(Colecistectomia.clinico.prohibidos, c);
  }

  lemma {:induction false} NoFlagNoFinding(entries: seq<(Flag, bool)>, c: ClinicalData)
    requires !c.embarazo && !c.comorbilidadDescompensada && !c.alergiaAnestesiaSevera
    ensures FlagFindings(entries, c) == []
  {
    if entries != [] {
      NoFlagNoFinding(entries[..|entries| - 1], c);
    }
  }

  lemma NoExclusionFindings(c: ClinicalData)
    requires c.exclusiones == []
    ensures ExclusionFindings(Colecistectomia.clinico.exclusiones, c.exclusiones) == []
  {
    NothingPresentNoExclusion(Colecistectomia.clinico.exclusiones);
  }

  lemma {:induction false} NothingPresentNoExclusion(labels: seq<string>)
    ensures ExclusionFindings(labels, []) == []
  {
    if labels != [] {
      NothingPresentNoExclusion(labels[..|labels| - 1]);
    }
  }

  /** Review findings of the cholecystectomy rule set for index and age. */
  lemma ColecistectomiaReview(c: ClinicalData)
    ensures ReviewFindings(Colecistectomia.reviewIf, c)
      == When(c.imc > 350, CriterioRevision(ReviewRule(Imc, ">", 350)))
       + When(c.edad > 700, CriterioRevision(ReviewRule(Edad, ">", 700)))
  {
    var rs := Colecistectomia.reviewIf;
    assert LookupOp(">") == Some(Gt);
    assert ReviewFires(rs[0], c) <==> c.imc > 350;
    assert ReviewFires(rs[1], c) <==> c.edad > 700;
    assert rs[..1] == [rs[0]] && rs[..1][..0] == [];
    assert ReviewFindings(rs[..1], c) == When(ReviewFires(rs[0], c), CriterioRevision(rs[0]));
  }

  lemma NoReviewFindings(c: ClinicalData)
    requires c.imc <= 350 && c.edad <= 700
    ensures ReviewFindings(Colecistectomia.reviewIf, c) == []
  {
    ColecistectomiaReview(c);
  }

  /** Body-mass index 41 against a maximum of 40 asks for review: the maximum is exceeded
      and the review rule on index over 35 fires too. */
  lemma HighBodyMassIndexAsksForReview()
    ensures Decide(Colecistectomia, Payload(GoodAdmin("2501025"), Healthy.(imc := 410)))
      == Decision(Revision, ["IMC > 40", "Criterio de revisión: imc > 35"])
  {
    var f0 := ImcSobreMaximo(400);
    var f1 := CriterioRevision(ReviewRule(Imc, ">", 350));
    HighIndexFindings();
    TwoReviewFindings(f0, f1);
    MaximumMessage();
    ReviewMessage();
  }

  /** Index 41: the maximum check and the index review rule fire, and nothing else. */
  lemma HighIndexFindings()
    ensures Findings(Colecistectomia, Payload(GoodAdmin("2501025"), Healthy.(imc := 410)))
      == [ImcSobreMaximo(400), CriterioRevision(ReviewRule(Imc, ">", 350))]
  {
    var p := Payload(GoodAdmin("2501025"), Healthy.(imc := 410));
    AdminAccepted(p);
    NoFlagFindings(p.clinico);
    NoExclusionFindings(p.clinico);
    ColecistectomiaReview(p.clinico);
    assert BoundFindings(Colecistectomia, p.clinico) == [ImcSobreMaximo(400)];
  }

  /** Two review-level findings give REVISION with their two messages in order. */
  lemma TwoReviewFindings(f0: Finding, f1: Finding)
    requires !IsHard(f0) && !IsHard(f1)
    ensures Worst([f0, f1]) == Revision
    ensures Messages([f0, f1]) == [Message(f0), Message(f1)]
  {
    Record([f0], f1);
    assert [f0] + [f1] == [f0, f1];
    assert [f0][..0] == [];
  }

  lemma MaximumMessage()
    ensures Message(ImcSobreMaximo(400)) == "IMC > 40"
  {
    assert NatToString(40) == "40" by {
      assert NatToString(4) == "4";
    }
  }

  lemma ReviewMessage()
    ensures Message(CriterioRevision(ReviewRule(Imc, ">", 350))) == "Criterio de revisión: imc > 35"
  {
    assert NatToString(35) == "35" by {
      assert NatToString(3) == "3";
    }
    assert DigitChar(0) == '0' && DigitChar(5) == '5';
  }

  /** Under any rule set shaped like those of the catalogue a pregnant patient is
      rejected, whatever the rest of the case says. */
  lemma PregnancyIsRejected(r: RuleSet, p: Payload)
    requires WellFormed(r)
    requires p.clinico.embarazo
    ensures Decide(r, p).status == NoCumple
  {
    assert r.clinico.prohibidos[0] == (Embarazo, true);
    StatusIsMostSevere(r, p);
  }

  /** Tier A with a pregnancy is rejected with at least two reasons, the tier message
      first. */
  lemma TierAAndPregnancyRejected(r: RuleSet, p: Payload)
    requires WellFormed(r)
    requires p.admin.tramo == "A" && p.clinico.embarazo
    ensures Decide(r, p).status == NoCumple
    ensures |Decide(r, p).reasons| >= 2
    ensures Decide(r, p).reasons[0] == "Tramo A no permitido"
  {
    PregnancyIsRejected(r, p);
    TierAAndPregnancyFindings(r, p);
    ReasonsFollowRunOrder(r, p, 0);
    TierMessage();
  }

  lemma TierMessage()
    ensures Message(TramoNoPermitido("A")) == "Tramo A no permitido"
  {
  }

  /** The tier check fires first, and the pregnancy check fires too. */
  lemma TierAAndPregnancyFindings(r: RuleSet, p: Payload)
    requires WellFormed(r)
    requires p.admin.tramo == "A" && p.clinico.embarazo
    ensures |Findings(r, p)| >= 2
    ensures Findings(r, p)[0] == TramoNoPermitido("A")
  {
    var admin := AdminFindings(r, p);
    assert admin[0] == TramoNoPermitido("A") by {
      assert "A" !in r.admin.tramosPermitidos;
    }
    var flags := FlagFindings(r.clinico.prohibidos, p.clinico);
    assert flags != [] by {
      assert r.clinico.prohibidos[0] == (Embarazo, true);
      FlagFindingsFire(r.clinico.prohibidos, p.clinico);
    }
    var fs := Findings(r, p);
    assert fs[0] == admin[0];
    assert |fs| >= |admin| + |flags|;
  }

  /** The two scenarios above, for every rule set of the catalogue. */
  lemma CatalogueRejectsPregnancy(key: string, p: Payload)
    requires key in Catalogue
    requires p.clinico.embarazo
    ensures Decide(Catalogue[key], p).status == NoCumple
    ensures p.admin.tramo == "A" ==>
      |Decide(Catalogue[key], p).reasons| >= 2
      && Decide(Catalogue[key], p).reasons[0] == "Tramo A no permitido"
  {
    CatalogueWellFormed();
    PregnancyIsRejected(Catalogue[key], p);
    if p.admin.tramo == "A" {
      TierAAndPregnancyRejected(Catalogue[key], p);
    }
  }
}
