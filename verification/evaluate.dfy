/** The eligibility rule evaluator of bono-pad/src/utils/evaluate.js: a rule set for one
    surgery and the intake data of one patient give a status (CUMPLE, REVISION or NO_CUMPLE)
    and the list of reasons that explain it.

    Clinical numbers (age, body-mass index and the thresholds they are compared with) are
    held as integer counts of tenths: the caller rounds the body-mass index to one decimal and
    the age is an integer, so every such value is exactly k/10 for an integer k. */
module Evaluate {
  import opened Options
  import opened Text

  // ---------------------------------------------------------------------------------------
  // Data model
  // ---------------------------------------------------------------------------------------

  datatype Status = Cumple | Revision | NoCumple

  /** Severity order CUMPLE < REVISION < NO_CUMPLE. */
  function Rank(s: Status): nat {
    match s
    case Cumple => 0
    case Revision => 1
    case NoCumple => 2
  }

  function MostSevere(a: Status, b: Status): (m: Status)
    ensures m == a || m == b
    ensures Rank(a) <= Rank(m) && Rank(b) <= Rank(m)
  {
    if Rank(a) < Rank(b) then b else a
  }

  /** The six comparison operators of the `OPS` table. */
  datatype Op = Gt | Lt | Ge | Le | Eq | Ne

  function OpSymbol(op: Op): string {
    match op
    case Gt => ">"
    case Lt => "<"
    case Ge => ">="
    case Le => "<="
    case Eq => "=="
    case Ne => "!="
  }

  /** `OPS[name]`: the operator a rule's `op` string names, if any. */
  function LookupOp(name: string): (r: Option<Op>)
    ensures r.Some? ==> OpSymbol(r.value) == name
    ensures r.None? ==> forall op: Op :: OpSymbol(op) != name
  {
    if name == ">" then Some(Gt)
    else if name == "<" then Some(Lt)
    else if name == ">=" then Some(Ge)
    else if name == "<=" then Some(Le)
    else if name == "==" then Some(Eq)
    else if name == "!=" then Some(Ne)
    else None
  }

  /** Every operator of the table is found under its own symbol. */
  lemma LookupSymbol(op: Op)
    ensures LookupOp(OpSymbol(op)) == Some(op)
  {
  }

  /** `OPS[op](a, b)`; `==` and `!=` are strict (no coercion between kinds of values). */
  function Apply(op: Op, a: int, b: int): bool {
    match op
    case Gt => a > b
    case Lt => a < b
    case Ge => a >= b
    case Le => a <= b
    case Eq => a == b
    case Ne => a != b
  }

  /** The clinical fields a review rule may name. */
  datatype Field = Imc | Edad

  function FieldName(f: Field): string {
    match f
    case Imc => "imc"
    case Edad => "edad"
  }

  /** The boolean clinical flags a rule set may forbid. */
  datatype Flag = Embarazo | ComorbilidadDescompensada | AlergiaAnestesiaSevera

  function FlagName(f: Flag): string {
    match f
    case Embarazo => "embarazo"
    case ComorbilidadDescompensada => "comorbilidadDescompensada"
    case AlergiaAnestesiaSevera => "alergiaAnestesiaSevera"
  }

  /** One `reviewIf` entry: `{ field, op, value }`, value in tenths. */
  datatype ReviewRule = ReviewRule(field: Field, op: string, value: int)

  datatype AdminRules = AdminRules(
    tramosPermitidos: seq<string>,
    ordenVigenciaDias: int,
    prestadorEnConvenio: bool)

  /** `prohibidos` keeps the key order of the rule's object literal. */
  datatype ClinicalRules = ClinicalRules(
    minEdad: int,
    maxImc: int,
    prohibidos: seq<(Flag, bool)>,
    exclusiones: seq<string>)

  /** A missing `codigoPad`, `exclusiones` or `reviewIf` list is the empty list. */
  datatype RuleSet = RuleSet(
    codigoPad: seq<string>,
    admin: AdminRules,
    clinico: ClinicalRules,
    reviewIf: seq<ReviewRule>)

  datatype AdminData = AdminData(
    rut: string,
    tramo: string,
    codigoPad: string,
    prestadorConvenio: bool,
    diasOrden: int)

  datatype ClinicalData = ClinicalData(
    edad: int,
    imc: int,
    embarazo: bool,
    comorbilidadDescompensada: bool,
    alergiaAnestesiaSevera: bool,
    exclusiones: seq<string>)

  datatype Payload = Payload(admin: AdminData, clinico: ClinicalData)

  datatype Decision = Decision(status: Status, reasons: seq<string>)

  /** `payload.clinico[k]` for a forbidden-flag key. */
  function FlagValue(c: ClinicalData, f: Flag): bool {
    match f
    case Embarazo => c.embarazo
    case ComorbilidadDescompensada => c.comorbilidadDescompensada
    case AlergiaAnestesiaSevera => c.alergiaAnestesiaSevera
  }

  /** `payload.clinico[rule.field]` for a review rule. */
  function FieldValue(c: ClinicalData, f: Field): int {
    match f
    case Imc => c.imc
    case Edad => c.edad
  }

  /** A review rule fires when its operator is known and the comparison holds. */
  predicate ReviewFires(rule: ReviewRule, c: ClinicalData) {
    match LookupOp(rule.op)
    case None => false
    case Some(op) => Apply(op, FieldValue(c, rule.field), rule.value)
  }

  // ---------------------------------------------------------------------------------------
  // The checks that can fire, their severity and their message
  // ---------------------------------------------------------------------------------------

  datatype Finding =
    | TramoNoPermitido(tramo: string)
    | PrestadorFueraDeConvenio
    | CodigoPadNoCoincide(codigo: string)
    | OrdenVencida(vigenciaDias: int)
    | EdadBajoMinimo(minEdad: int)
    | ImcSobreMaximo(maxImc: int)
    | CondicionPresente(flag: Flag)
    | Exclusion(criterion: string)
    | CriterioRevision(rule: ReviewRule)

  /** The checks that reject outright. */
  predicate IsHard(f: Finding) {
    f.TramoNoPermitido? || f.OrdenVencida? || f.EdadBajoMinimo? || f.CondicionPresente? || f.Exclusion?
  }

  function Severity(f: Finding): (s: Status)
    ensures s != Cumple
  {
    if IsHard(f) then NoCumple else Revision
  }

  const Sentinel: string := "Cumple criterios del MVP"

  function Message(f: Finding): string {
    match f
    case TramoNoPermitido(t) => "Tramo " + t + " no permitido"
    case PrestadorFueraDeConvenio => "Prestador no está en convenio PAD"
    case CodigoPadNoCoincide(c) => "Código PAD no coincide (" + c + ")"
    case OrdenVencida(d) => "Orden médica vencida (> " + IntToString(d) + " días)"
    case EdadBajoMinimo(m) => "Edad < " + TenthsToString(m)
    case ImcSobreMaximo(m) => "IMC > " + TenthsToString(m)
    case CondicionPresente(k) => FlagName(k) + " presente"
    case Exclusion(x) => "Exclusión: " + x
    case CriterioRevision(r) =>
      "Criterio de revisión: " + FieldName(r.field) + " " + r.op + " " + TenthsToString(r.value)
  }

  /** No check's message can be mistaken for the sentinel. */
  lemma MessageIsNotSentinel(f: Finding)
    ensures Message(f) != Sentinel
  {
    if f.TramoNoPermitido? || f.PrestadorFueraDeConvenio? || f.CodigoPadNoCoincide? || f.OrdenVencida? {
      AdminMessageIsNotSentinel(f);
    } else {
      ClinicalMessageIsNotSentinel(f);
    }
  }

  lemma AdminMessageIsNotSentinel(f: Finding)
    requires f.TramoNoPermitido? || f.PrestadorFueraDeConvenio? || f.CodigoPadNoCoincide? || f.OrdenVencida?
    ensures Message(f) != Sentinel
  {
    match f
    case TramoNoPermitido(t) => assert ("Tramo " + t + " no permitido")[0] == 'T';
    case PrestadorFueraDeConvenio =>
    case CodigoPadNoCoincide(c) => assert ("Código PAD no coincide (" + c + ")")[1] == 'ó';
    case OrdenVencida(d) => assert ("Orden médica vencida (> " + IntToString(d) + " días)")[0] == 'O';
  }

  lemma ClinicalMessageIsNotSentinel(f: Finding)
    requires !(f.TramoNoPermitido? || f.PrestadorFueraDeConvenio? || f.CodigoPadNoCoincide? || f.OrdenVencida?)
    ensures Message(f) != Sentinel
  {
    match f
    case EdadBajoMinimo(x) => assert ("Edad < " + TenthsToString(x))[0] == 'E';
    case ImcSobreMaximo(x) => assert ("IMC > " + TenthsToString(x))[0] == 'I';
    case CondicionPresente(k) => assert (FlagName(k) + " presente")[0] == FlagName(k)[0];
    case Exclusion(x) => assert ("Exclusión: " + x)[0] == 'E';
    case CriterioRevision(r) =>
      var rest := FieldName(r.field) + " " + r.op + " " + TenthsToString(r.value);
      assert ("Criterio de revisión: " + rest)[1] == 'r';
  }

  // ---------------------------------------------------------------------------------------
  // Specification: the ordered list of checks that fire, and the decision it gives
  // ---------------------------------------------------------------------------------------

  /** The one-element list [f] when the check fired, else the empty list. */
  function When(fired: bool, f: Finding): seq<Finding> {
    if fired then [f] else []
  }

  function AdminFindings(r: RuleSet, p: Payload): seq<Finding> {
    When(p.admin.tramo !in r.admin.tramosPermitidos, TramoNoPermitido(p.admin.tramo))
    + When(r.admin.prestadorEnConvenio && !p.admin.prestadorConvenio, PrestadorFueraDeConvenio)
    + When(|r.codigoPad| > 0 && p.admin.codigoPad !in r.codigoPad, CodigoPadNoCoincide(p.admin.codigoPad))
    + When(p.admin.diasOrden > r.admin.ordenVigenciaDias, OrdenVencida(r.admin.ordenVigenciaDias))
  }

  function BoundFindings(r: RuleSet, c: ClinicalData): seq<Finding> {
    When(c.edad < r.clinico.minEdad, EdadBajoMinimo(r.clinico.minEdad))
    + When(c.imc > r.clinico.maxImc, ImcSobreMaximo(r.clinico.maxImc))
  }

  /** Forbidden flags configured true and present, in key order. */
  function FlagFindings(entries: seq<(Flag, bool)>, c: ClinicalData): (fs: seq<Finding>)
  {
    if entries == [] then []
    else
      var last := entries[|entries| - 1];
      FlagFindings(entries[..|entries| - 1], c)
        + When(last.1 && FlagValue(c, last.0), CondicionPresente(last.0))
  }

  /** Exclusions of the rule that the patient presents, in the rule's order. */
  function ExclusionFindings(labels: seq<string>, present: seq<string>): (fs: seq<Finding>)
  {
    if labels == [] then []
    else
      var last := labels[|labels| - 1];
      ExclusionFindings(labels[..|labels| - 1], present)
        + When(last in present, Exclusion(last))
  }

  /** Review rules that fire, in list order. */
  function ReviewFindings(rules: seq<ReviewRule>, c: ClinicalData): (fs: seq<Finding>)
  {
    if rules == [] then []
    else
      var last := rules[|rules| - 1];
      ReviewFindings(rules[..|rules| - 1], c)
        + When(ReviewFires(last, c), CriterioRevision(last))
  }

  /** Every check that fires, in the order the evaluator runs them. */
  function Findings(r: RuleSet, p: Payload): seq<Finding> {
    AdminFindings(r, p)
    + BoundFindings(r, p.clinico)
    + FlagFindings(r.clinico.prohibidos, p.clinico)
    + ExclusionFindings(r.clinico.exclusiones, p.clinico.exclusiones)
    + ReviewFindings(r.reviewIf, p.clinico)
  }

  /** The status after the checks in fs: each one can only raise it. */
  function Worst(fs: seq<Finding>): Status {
    if fs == [] then Cumple
    else MostSevere(Worst(fs[..|fs| - 1]), Severity(fs[|fs| - 1]))
  }

  function Messages(fs: seq<Finding>): (ms: seq<string>)
    ensures |ms| == |fs|
  {
    seq(|fs|, j requires 0 <= j < |fs| => Message(fs[j]))
  }

  /** Recording one more fired check appends its message and can only raise the status. */
  lemma Record(fs: seq<Finding>, f: Finding)
    ensures Messages(fs + [f]) == Messages(fs) + [Message(f)]
    ensures Worst(fs + [f]) == MostSevere(Worst(fs), Severity(f))
  {
    assert (fs + [f])[..|fs|] == fs;
  }

  /** The decision for a rule set and a payload: one reason per check that fires, or the
      sentinel reason alone when none fires. */
  function Decide(r: RuleSet, p: Payload): Decision {
    var fs := Findings(r, p);
    if fs == [] then Decision(Cumple, [Sentinel]) else Decision(Worst(fs), Messages(fs))
  }

  // ---------------------------------------------------------------------------------------
  // The evaluator itself
  // ---------------------------------------------------------------------------------------

  /** The state `evaluateCase` accumulates agrees with the checks fired so far. */
  ghost predicate Tracks(reasons: seq<string>, status: Status, fired: seq<Finding>) {
    reasons == Messages(fired) && status == Worst(fired)
  }

  /** What each check does when it fires: push its reason, and set NO_CUMPLE for a
      rejecting check or move CUMPLE to REVISION for a review check. */
  method Fire(reasons0: seq<string>, status0: Status, ghost fired0: seq<Finding>, f: Finding)
    returns (reasons: seq<string>, status: Status, ghost fired: seq<Finding>)
    requires Tracks(reasons0, status0, fired0)
    ensures fired == fired0 + [f]
    ensures Tracks(reasons, status, fired)
  {
    Record(fired0, f);
    reasons, fired := reasons0 + [Message(f)], fired0 + [f];
    if IsHard(f) {
      status := NoCumple;
    } else {
      status := if status0 == Cumple then Revision else status0;
    }
  }

  /** The administrative checks (tier, provider contract, PAD code, order age). */
  method CheckAdmin(rules: RuleSet, payload: Payload, reasons0: seq<string>, status0: Status, ghost fired0: seq<Finding>)
    returns (reasons: seq<string>, status: Status, ghost fired: seq<Finding>)
    requires Tracks(reasons0, status0, fired0)
    ensures fired == fired0 + AdminFindings(rules, payload)
    ensures Tracks(reasons, status, fired)
  {
    reasons, status, fired := reasons0, status0, fired0;
    var tramoRejected := payload.admin.tramo !in rules.admin.tramosPermitidos;
    ghost var w1 := When(tramoRejected, TramoNoPermitido(payload.admin.tramo));
    if tramoRejected {
      reasons, status, fired := Fire(reasons, status, fired, TramoNoPermitido(payload.admin.tramo));
    }
    assert fired == fired0 + w1;
    ghost var g1 := fired;
    var outsideConvenio := rules.admin.prestadorEnConvenio && !payload.admin.prestadorConvenio;
    ghost var w2 := When(outsideConvenio, PrestadorFueraDeConvenio);
    if outsideConvenio {
      reasons, status, fired := Fire(reasons, status, fired, PrestadorFueraDeConvenio);
    }
    assert fired == g1 + w2;
    ghost var g2 := fired;
    var codigoMismatch := |rules.codigoPad| > 0 && payload.admin.codigoPad !in rules.codigoPad;
    ghost var w3 := When(codigoMismatch, CodigoPadNoCoincide(payload.admin.codigoPad));
    if codigoMismatch {
      reasons, status, fired := Fire(reasons, status, fired, CodigoPadNoCoincide(payload.admin.codigoPad));
    }
    assert fired == g2 + w3;
    ghost var g3 := fired;
    var ordenVencida := payload.admin.diasOrden > rules.admin.ordenVigenciaDias;
    ghost var w4 := When(ordenVencida, OrdenVencida(rules.admin.ordenVigenciaDias));
    if ordenVencida {
      reasons, status, fired := Fire(reasons, status, fired, OrdenVencida(rules.admin.ordenVigenciaDias));
    }
    assert fired == g3 + w4;
    Concat4(fired0, g1, g2, g3, fired, w1, w2, w3, w4);
  }

  /** One more check run after some others adds its findings after theirs. */
  lemma Extend(g0: seq<Finding>, a: seq<Finding>, g1: seq<Finding>, w: seq<Finding>, g2: seq<Finding>)
    requires g1 == g0 + a && g2 == g1 + w
    ensures g2 == g0 + (a + w)
  {
  }

  /** Four checks run one after the other add their findings in order. */
  lemma Concat4(g0: seq<Finding>, g1: seq<Finding>, g2: seq<Finding>, g3: seq<Finding>, g4: seq<Finding>,
                w1: seq<Finding>, w2: seq<Finding>, w3: seq<Finding>, w4: seq<Finding>)
    requires g1 == g0 + w1 && g2 == g1 + w2 && g3 == g2 + w3 && g4 == g3 + w4
    ensures g4 == g0 + (w1 + w2 + w3 + w4)
  {
  }

  /** The clinical bounds (minimum age, maximum body-mass index). */
  method CheckBounds(rules: RuleSet, c: ClinicalData, reasons0: seq<string>, status0: Status, ghost fired0: seq<Finding>)
    returns (reasons: seq<string>, status: Status, ghost fired: seq<Finding>)
    requires Tracks(reasons0, status0, fired0)
    ensures fired == fired0 + BoundFindings(rules, c)
    ensures Tracks(reasons, status, fired)
  {
    reasons, status, fired := reasons0, status0, fired0;
    var underAge := c.edad < rules.clinico.minEdad;
    if underAge {
      var f := EdadBajoMinimo(rules.clinico.minEdad);
      reasons, status, fired := Fire(reasons, status, fired, f);
    }
    assert fired == fired0 + When(underAge, EdadBajoMinimo(rules.clinico.minEdad));
    ghost var before := fired;
    var overImc := c.imc > rules.clinico.maxImc;
    if overImc {
      var f := ImcSobreMaximo(rules.clinico.maxImc);
      reasons, status, fired := Fire(reasons, status, fired, f);
    }
    assert fired == before + When(overImc, ImcSobreMaximo(rules.clinico.maxImc));
  }

  /** The forbidden flags, in key order. */
  method CheckProhibidos(prohibidos: seq<(Flag, bool)>, c: ClinicalData, reasons0: seq<string>, status0: Status, ghost fired0: seq<Finding>)
    returns (reasons: seq<string>, status: Status, ghost fired: seq<Finding>)
    requires Tracks(reasons0, status0, fired0)
    ensures fired == fired0 + FlagFindings(prohibidos, c)
    ensures Tracks(reasons, status, fired)
  {
    reasons, status, fired := reasons0, status0, fired0;
    for i := 0 to |prohibidos|
      invariant fired == fired0 + FlagFindings(prohibidos[..i], c)
      invariant Tracks(reasons, status, fired)
    {
      ghost var prev := fired;
      var (k, flag) := prohibidos[i];
      if flag && FlagValue(c, k) {
        reasons, status, fired := Fire(reasons, status, fired, CondicionPresente(k));
      }
      FlagStep(prohibidos, c, i);
      Extend(fired0, FlagFindings(prohibidos[..i], c), prev, When(flag && FlagValue(c, k), CondicionPresente(k)), fired);
    }
    assert prohibidos[..|prohibidos|] == prohibidos;
  }

  /** The exclusion criteria, in the rule's order. */
  method CheckExclusiones(exclusiones: seq<string>, present: seq<string>, reasons0: seq<string>, status0: Status, ghost fired0: seq<Finding>)
    returns (reasons: seq<string>, status: Status, ghost fired: seq<Finding>)
    requires Tracks(reasons0, status0, fired0)
    ensures fired == fired0 + ExclusionFindings(exclusiones, present)
    ensures Tracks(reasons, status, fired)
  {
    reasons, status, fired := reasons0, status0, fired0;
    for i := 0 to |exclusiones|
      invariant fired == fired0 + ExclusionFindings(exclusiones[..i], present)
      invariant Tracks(reasons, status, fired)
    {
      ghost var prev := fired;
      var x := exclusiones[i];
      if x in present {
        reasons, status, fired := Fire(reasons, status, fired, Exclusion(x));
      }
      ExclusionStep(exclusiones, present, i);
      Extend(fired0, ExclusionFindings(exclusiones[..i], present), prev, When(x in present, Exclusion(x)), fired);
    }
    assert exclusiones[..|exclusiones|] == exclusiones;
  }

  /** One more entry of each list adds the finding for that entry, if it fires. */
  lemma FlagStep(entries: seq<(Flag, bool)>, c: ClinicalData, i: nat)
    requires i < |entries|
    ensures FlagFindings(entries[..i + 1], c)
      == FlagFindings(entries[..i], c) + When(entries[i].1 && FlagValue(c, entries[i].0), CondicionPresente(entries[i].0))
  {
    assert entries[..i + 1][..i] == entries[..i];
  }

  lemma ExclusionStep(labels: seq<string>, present: seq<string>, i: nat)
    requires i < |labels|
    ensures ExclusionFindings(labels[..i + 1], present)
      == ExclusionFindings(labels[..i], present) + When(labels[i] in present, Exclusion(labels[i]))
  {
    assert labels[..i + 1][..i] == labels[..i];
  }

  lemma ReviewStep(rules: seq<ReviewRule>, c: ClinicalData, i: nat)
    requires i < |rules|
    ensures ReviewFindings(rules[..i + 1], c)
      == ReviewFindings(rules[..i], c) + When(ReviewFires(rules[i], c), CriterioRevision(rules[i]))
  {
    assert rules[..i + 1][..i] == rules[..i];
  }

  /** The review rules, in list order; they never lower a NO_CUMPLE. */
  method CheckReviewIf(reviewIf: seq<ReviewRule>, c: ClinicalData, reasons0: seq<string>, status0: Status, ghost fired0: seq<Finding>)
    returns (reasons: seq<string>, status: Status, ghost fired: seq<Finding>)
    requires Tracks(reasons0, status0, fired0)
    ensures fired == fired0 + ReviewFindings(reviewIf, c)
    ensures Tracks(reasons, status, fired)
  {
    reasons, status, fired := reasons0, status0, fired0;
    for i := 0 to |reviewIf|
      invariant fired == fired0 + ReviewFindings(reviewIf[..i], c)
      invariant Tracks(reasons, status, fired)
    {
      ghost var prev := fired;
      var rule := reviewIf[i];
      var v := FieldValue(c, rule.field);
      var op := LookupOp(rule.op);
      var fires := op.Some? && Apply(op.value, v, rule.value);
      if fires {
        reasons, status, fired := Fire(reasons, status, fired, CriterioRevision(rule));
      }
      ReviewStep(reviewIf, c, i);
      assert fires == ReviewFires(rule, c);
      Extend(fired0, ReviewFindings(reviewIf[..i], c), prev, When(fires, CriterioRevision(rule)), fired);
    }
    assert reviewIf[..|reviewIf|] == reviewIf;
  }

  /** `evaluateCase(rules, payload)`: runs the administrative checks, then the clinical
      bounds, the forbidden flags, the exclusions and the review rules, pushing one reason
      per check that fires, and pushes the sentinel reason when none did. */
  method EvaluateCase(rules: RuleSet, payload: Payload) returns (d: Decision)
    ensures d == Decide(rules, payload)
  {
    var reasons: seq<string> := [];
    var status := Cumple;
    ghost var fired: seq<Finding> := [];

    reasons, status, fired := CheckAdmin(rules, payload, reasons, status, fired);
    ghost var f1 := fired;
    reasons, status, fired := CheckBounds(rules, payload.clinico, reasons, status, fired);
    ghost var f2 := fired;
    reasons, status, fired :=
      CheckProhibidos(rules.clinico.prohibidos, payload.clinico, reasons, status, fired);
    ghost var f3 := fired;
    reasons, status, fired :=
      CheckExclusiones(rules.clinico.exclusiones, payload.clinico.exclusiones, reasons, status, fired);
    ghost var f4 := fired;
    reasons, status, fired := CheckReviewIf(rules.reviewIf, payload.clinico, reasons, status, fired);
    FindingsChain(rules, payload, f1, f2, f3, f4, fired);
    DecideOf(rules, payload, reasons, status, fired);

    if |reasons| == 0 && status == Cumple {
      reasons := reasons + [Sentinel];
    }
    d := Decision(status, reasons);
  }

  /** The five stages together produce Findings(r, p). */
  lemma FindingsChain(r: RuleSet, p: Payload, f1: seq<Finding>, f2: seq<Finding>, f3: seq<Finding>, f4: seq<Finding>, f5: seq<Finding>)
    requires f1 == [] + AdminFindings(r, p)
    requires f2 == f1 + BoundFindings(r, p.clinico)
    requires f3 == f2 + FlagFindings(r.clinico.prohibidos, p.clinico)
    requires f4 == f3 + ExclusionFindings(r.clinico.exclusiones, p.clinico.exclusiones)
    requires f5 == f4 + ReviewFindings(r.reviewIf, p.clinico)
    ensures f5 == Findings(r, p)
  {
    assert [] + AdminFindings(r, p) == AdminFindings(r, p);
  }

  /** The final sentinel step turns the tracked state into Decide(r, p). */
  lemma DecideOf(r: RuleSet, p: Payload, reasons: seq<string>, status: Status, fired: seq<Finding>)
    requires Tracks(reasons, status, fired) && fired == Findings(r, p)
    ensures (if |reasons| == 0 && status == Cumple then Decision(status, reasons + [Sentinel])
             else Decision(status, reasons)) == Decide(r, p)
  {
  }
}
