/** The rule catalogue of bono-pad/src/rules/padRules.js: one rule set per surgery, and the
    resolution of a free-text surgery label to a catalogue key. Ages and body-mass indices
    are written in tenths (18 years is 180, a body-mass index of 40 is 400). */
module PadRules {
  import opened Options
  import opened Text
  import opened Evaluate

  /** The three forbidden flags, in the key order every rule set lists them. */
  const Prohibidos: seq<(Flag, bool)> :=
    [(Embarazo, true), (ComorbilidadDescompensada, true), (AlergiaAnestesiaSevera, true)]

  const Admin: AdminRules := AdminRules(["B", "C", "D"], 30, true)

  const Colecistectomia: RuleSet := RuleSet(
    ["2501025"],
    Admin,
    ClinicalRules(180, 400, Prohibidos, ["sepsis No Controlada", "sospecha Cancer Activo"]),
    [ReviewRule(Imc, ">", 350), ReviewRule(Edad, ">", 700)])

  const HerniaInguinal: RuleSet := RuleSet(
    ["2502001"],
    Admin,
    ClinicalRules(180, 420, Prohibidos, []),
    [ReviewRule(Imc, ">", 370)])

  const Histerectomia: RuleSet := RuleSet(
    ["2503007"],
    Admin,
    ClinicalRules(180, 380, Prohibidos, []),
    [ReviewRule(Edad, ">", 650)])

  /** `padRules`, keyed by surgery identifier. */
  const Catalogue: map<string, RuleSet> := map[
    "COLECISTECTOMIA" := Colecistectomia,
    "HERNIA_INGUINAL" := HerniaInguinal,
    "HISTERECTOMIA" := Histerectomia]

  /** The contents of `padRules`: three surgeries, each with its PAD code, its upper
      body-mass bound, its exclusions and its review rules. */
  lemma CatalogueContents()
    ensures Catalogue.Keys == {"COLECISTECTOMIA", "HERNIA_INGUINAL", "HISTERECTOMIA"}
    ensures Catalogue["COLECISTECTOMIA"].codigoPad == ["2501025"]
    ensures Catalogue["COLECISTECTOMIA"].clinico.maxImc == 400
    ensures |Catalogue["COLECISTECTOMIA"].clinico.exclusiones| == 2
    ensures Catalogue["COLECISTECTOMIA"].reviewIf == [ReviewRule(Imc, ">", 350), ReviewRule(Edad, ">", 700)]
    ensures Catalogue["HERNIA_INGUINAL"].codigoPad == ["2502001"]
    ensures Catalogue["HERNIA_INGUINAL"].clinico.maxImc == 420
    ensures Catalogue["HERNIA_INGUINAL"].clinico.exclusiones == []
    ensures Catalogue["HERNIA_INGUINAL"].reviewIf == [ReviewRule(Imc, ">", 370)]
    ensures Catalogue["HISTERECTOMIA"].codigoPad == ["2503007"]
    ensures Catalogue["HISTERECTOMIA"].clinico.maxImc == 380
    ensures Catalogue["HISTERECTOMIA"].clinico.exclusiones == []
    ensures Catalogue["HISTERECTOMIA"].reviewIf == [ReviewRule(Edad, ">", 650)]
  {
  }

  /** `mapCirugiaKey`: lower-case the surgery label (null and undefined read as the empty
      string) and test the roots "colecist", "hernia" and "hister" in that order; the first
      that occurs wins, and None stands for `null`. */
  function MapCirugiaKey(cirugia: Option<string>): (key: Option<string>)
    ensures key.Some? ==> key.value in Catalogue
  {
    var t := Lower(if cirugia.Some? then cirugia.value else "");
    if Contains(t, "colecist") then Some("COLECISTECTOMIA")
    else if Contains(t, "hernia") then Some("HERNIA_INGUINAL")
    else if Contains(t, "hister") then Some("HISTERECTOMIA")
    else None
  }

  /** `root` occurs in the lower-cased label at some position. */
  ghost predicate Mentions(cirugia: string, root: string) {
    exists i :: 0 <= i <= |cirugia| && root <= Lower(cirugia)[i..]
  }

  /** The first root that occurs decides; a label mentioning none of them resolves to
      nothing. */
  lemma ResolutionOrder(cirugia: string)
    ensures Mentions(cirugia, "colecist") ==> MapCirugiaKey(Some(cirugia)) == Some("COLECISTECTOMIA")
    ensures !Mentions(cirugia, "colecist") && Mentions(cirugia, "hernia") ==>
      MapCirugiaKey(Some(cirugia)) == Some("HERNIA_INGUINAL")
    ensures !Mentions(cirugia, "colecist") && !Mentions(cirugia, "hernia") && Mentions(cirugia, "hister") ==>
      MapCirugiaKey(Some(cirugia)) == Some("HISTERECTOMIA")
    ensures MapCirugiaKey(Some(cirugia)) == None <==>
      !Mentions(cirugia, "colecist") && !Mentions(cirugia, "hernia") && !Mentions(cirugia, "hister")
  {
  }

  /** A missing or empty label resolves to nothing. */
  lemma EmptyLabelResolvesToNothing()
    ensures MapCirugiaKey(None) == None
    ensures MapCirugiaKey(Some("")) == None
  {
  }

  /** Resolution ignores letter case. */
  lemma ResolutionIgnoresCase(cirugia: string)
    ensures MapCirugiaKey(Some(cirugia)) == MapCirugiaKey(Some(Lower(cirugia)))
  {
    LowerIdempotent(cirugia);
  }

  /** A label with "hernia" but not "colecist" in its lower-cased form is a hernia repair. */
  lemma HerniaRootResolves(cirugia: string)
    requires !Contains(Lower(cirugia), "colecist") && Contains(Lower(cirugia), "hernia")
    ensures MapCirugiaKey(Some(cirugia)) == Some("HERNIA_INGUINAL")
  {
  }

  /** A label with "hister" and neither earlier root is a hysterectomy. */
  lemma HisterRootResolves(cirugia: string)
    requires !Contains(Lower(cirugia), "colecist") && !Contains(Lower(cirugia), "hernia")
    requires Contains(Lower(cirugia), "hister")
    ensures MapCirugiaKey(Some(cirugia)) == Some("HISTERECTOMIA")
  {
  }

  /** The three labels the intake form offers resolve to their own rule sets. */
  lemma ColecistectomiaLabelResolves()
    ensures MapCirugiaKey(Some("Colecistectomía")) == Some("COLECISTECTOMIA")
  {
    assert "colecist" <= Lower("Colecistectomía")[0..];
  }

  lemma HerniaLabelResolves()
    ensures MapCirugiaKey(Some("Hernia inguinal")) == Some("HERNIA_INGUINAL")
  {
    HerniaRoots();
    HerniaRootResolves("Hernia inguinal");
  }

  /** Which roots the lower-cased hernia label contains. */
  lemma HerniaRoots()
    ensures !Contains(Lower("Hernia inguinal"), "colecist")
    ensures Contains(Lower("Hernia inguinal"), "hernia")
  {
    assert Lower("Hernia inguinal") == "hernia inguinal";
    AbsentCharNotContained("hernia inguinal", "colecist", 'c');
    PrefixContained("hernia inguinal", "hernia");
  }

  lemma HisterectomiaLabelResolves()
    ensures MapCirugiaKey(Some("Histerectomía")) == Some("HISTERECTOMIA")
  {
    NoColecistInHisterectomia();
    NoHerniaInHisterectomia();
    HisterInHisterectomia();
    HisterRootResolves("Histerectomía");
  }

  lemma LowerHisterectomia()
    ensures Lower("Histerectomía") == "histerectomía"
  {
  }

  // The three root facts are kept one per lemma: `Contains` on two literals is
  // unfolded by the solver, and several such facts side by side are costly.

  lemma NoColecistInHisterectomia()
    ensures !Contains(Lower("Histerectomía"), "colecist")
  {
    LowerHisterectomia();
    AbsentCharNotContained("histerectomía", "colecist", 'l');
  }

  lemma NoHerniaInHisterectomia()
    ensures !Contains(Lower("Histerectomía"), "hernia")
  {
    LowerHisterectomia();
    AbsentCharNotContained("histerectomía", "hernia", 'n');
  }

  lemma HisterInHisterectomia()
    ensures Contains(Lower("Histerectomía"), "hister")
  {
    LowerHisterectomia();
    PrefixContained("histerectomía", "hister");
  }

  /** What every rule set of the catalogue has in common. */
  predicate WellFormed(r: RuleSet) {
    && r.admin.tramosPermitidos == ["B", "C", "D"]
    && r.admin.ordenVigenciaDias == 30
    && r.admin.prestadorEnConvenio
    && r.clinico.minEdad == 180
    && |r.codigoPad| > 0
    && r.clinico.prohibidos == Prohibidos
    && forall i :: 0 <= i < |r.reviewIf| ==> r.reviewIf[i].op == ">" && LookupOp(r.reviewIf[i].op) == Some(Gt)
  }

  lemma CatalogueWellFormed()
    ensures forall key :: key in Catalogue ==> WellFormed(Catalogue[key])
  {
  }
}
