/**
 * The M/M/2 calculator `hitung_mm2` of app.py: input validation, the five
 * closed-form formulas of the assignment, the stability guard, the list of
 * five derivation steps and the result record.
 *
 * The formulas are the assignment's own (app.py:19-25), and the model proves
 * facts about them as written; it does not claim they are the textbook
 * two-server results.
 */
module QueueCalc {
  import opened Formatter

  /** Fractional digits used for every rounded number in the derivation text. */
  const DisplayDigits: nat := 4

  const EmptyMessage: string := "Input tidak boleh kosong."
  const NonPositiveMessage: string := "Input harus bernilai positif (> 0)."
  const UnstableMessage: string :=
    "Sistem tidak stabil: (μ - λ/2) harus > 0. Coba perbesar waktu pelayanan? (atau perbesar interarrival)."

  /** The right-hand sides of the five step formulas ("rumus"). */
  const LambdaFormula: string := "1 / (waktu antar kedatangan)"
  const MuFormula: string := "1 / (waktu pelayanan)"
  const RhoFormula: string := "λ / (2μ)"
  const WFormula: string := "1 / (μ - λ/2)"
  const WqFormula: string := "λ² / (2μ(μ - λ/2))"

  /** The three ValueError conditions of hitung_mm2, with their messages. */
  datatype CalcError = EmptyInput | NonPositiveInput | UnstableSystem {
    function Message(): string {
      match this
      case EmptyInput => EmptyMessage
      case NonPositiveInput => NonPositiveMessage
      case UnstableSystem => UnstableMessage
    }
  }

  datatype Result<+T> = Success(value: T) | Failure(error: CalcError)

  /** The "input" part of the returned record. */
  datatype Inputs = Inputs(interarrivalMin: real, serviceMin: real)

  /** The "hasil" part of the returned record: λ, μ, ρ, W and Wq. */
  datatype Metrics = Metrics(lambda: real, mu: real, rho: real, w: real, wq: real)

  /** One entry of "langkah": title, formula, substitution lines and the unrounded result. */
  datatype Step = Step(title: string, formula: string, lines: seq<string>, result: real)

  datatype Report = Report(input: Inputs, metrics: Metrics, steps: seq<Step>)

  /* ---------------------------------------------------------------------- */
  /* hitung_mm2                                                             */
  /* ---------------------------------------------------------------------- */

  /** The guard of the W step: μ - λ/2 > 0. */
  predicate Stable(a: real, s: real)
    requires a > 0.0 && s > 0.0
  {
    1.0 / s - (1.0 / a) / 2.0 > 0.0
  }

  /**
   * hitung_mm2(interarrival_min, service_min). A missing input (None) is
   * rejected first, then a non-positive one, then an unstable system; only
   * otherwise is a record returned, echoing the inputs, holding the metrics
   * and the five derivation steps.
   */
  function Compute(interarrival: Option<real>, service: Option<real>, floatText: real -> string)
    : (r: Result<Report>)
    ensures r == Failure(EmptyInput) <==> interarrival.None? || service.None?
    ensures r == Failure(NonPositiveInput) <==>
              interarrival.Some? && service.Some? &&
              (interarrival.value <= 0.0 || service.value <= 0.0)
    ensures r == Failure(UnstableSystem) <==>
              interarrival.Some? && service.Some? &&
              interarrival.value > 0.0 && service.value > 0.0 &&
              service.value >= 2.0 * interarrival.value
    ensures r.Success? ==>
              && interarrival.Some? && service.Some?
              && var a, s := interarrival.value, service.value;
                 && a > 0.0 && s > 0.0 && Stable(a, s)
                 && r.value.input == Inputs(a, s)
                 && r.value.metrics == MetricsOf(a, s)
                 && WellFormed(r.value, PlainWith(floatText), ShownWith(floatText))
  {
    if interarrival.None? || service.None? then Failure(EmptyInput)
    else
      var a, s := interarrival.value, service.value;
      if a <= 0.0 || s <= 0.0 then Failure(NonPositiveInput)
      else
        StableIffServiceBelowTwiceInterarrival(a, s);
        if !Stable(a, s) then Failure(UnstableSystem)
        else
          var m := MetricsOf(a, s);
          var steps := DerivationSteps(a, s, m, PlainWith(floatText), ShownWith(floatText));
          Success(Report(Inputs(a, s), m, steps))
  }

  /**
   * λ, μ, ρ, W and Wq of a stable system, computed as app.py does. In terms
   * of the inputs a and s they are 1/a, 1/s, s/(2a), 2as/(2a - s) and
   * s²/(a(2a - s)); all are positive and ρ < 1.
   */
  function MetricsOf(a: real, s: real): (m: Metrics)
    requires a > 0.0 && s > 0.0 && Stable(a, s)
    ensures m.lambda == 1.0 / a && m.mu == 1.0 / s
    ensures m.rho == s / (2.0 * a)
    ensures m.w == 2.0 * a * s / (2.0 * a - s)
    ensures m.wq == s * s / (a * (2.0 * a - s))
  {
    var lam := 1.0 / a;
    var mu := 1.0 / s;
    var twoMu := 2.0 * mu;
    var rho := lam / twoMu;
    var lamHalf := lam / 2.0;
    var denomW := mu - lamHalf;
    var w := 1.0 / denomW;
    var lamSq := lam * lam;
    var denomWq := twoMu * denomW;
    var wq := lamSq / denomWq;
    StableIffServiceBelowTwiceInterarrival(a, s);
    UtilizationClosedForm(a, s);
    SojournClosedForm(a, s);
    QueueWaitClosedForm(a, s);
    Metrics(lam, mu, rho, w, wq)
  }

  /* ---------------------------------------------------------------------- */
  /* Derivation steps                                                       */
  /* ---------------------------------------------------------------------- */

  /** fmt(x): the number as given. */
  function Plain(x: real, floatText: real -> string): string {
    Fmt(x, None, floatText)
  }

  /** fmt(x, pembulatan): the number rounded to the display digits. */
  function Shown(x: real, floatText: real -> string): string {
    Fmt(x, Some(DisplayDigits), floatText)
  }

  function PlainWith(floatText: real -> string): real -> string {
    x => Plain(x, floatText)
  }

  function ShownWith(floatText: real -> string): real -> string {
    x => Shown(x, floatText)
  }

  /** The symbol each step defines, in step order. */
  function Symbol(i: nat): string
    requires i < 5
  {
    ["λ", "μ", "ρ", "W", "Wq"][i]
  }

  /** A line "<symbol> = <right-hand side>", as every formula and substitution line reads. */
  function Line(sym: string, rhs: string): string {
    sym + " = " + rhs
  }

  /**
   * A step whose formula is "<sym> = <formulaRhs>" and whose substitution
   * lines are "<sym> = <rhs>" for each right-hand side in turn.
   */
  function MakeStep(title: string, sym: string, formulaRhs: string, rhss: seq<string>, result: real)
    : Step
  {
    Step(title, Line(sym, formulaRhs), seq(|rhss|, j requires 0 <= j < |rhss| => Line(sym, rhss[j])), result)
  }

  /** Step 1: λ = 1 / interarrival_min, substituting the input as given. */
  function LambdaStep(a: real, lam: real, plain: real -> string, shown: real -> string): (st: Step)
    ensures st.result == lam && StepShape(st, "λ", LambdaFormula, 3, shown)
    ensures InputSubstituted(st, "λ", a, plain)
  {
    var rhss := [ LambdaFormula,
                  "1 / " + plain(a),
                  shown(lam) ];
    var title := "Langkah 1 — Hitung λ (laju kedatangan)";
    MakeStepLines(title, "λ", LambdaFormula, rhss, lam, shown);
    MakeStep(title, "λ", LambdaFormula, rhss, lam)
  }

  /** Step 2: μ = 1 / service_min, substituting the input as given. */
  function MuStep(s: real, mu: real, plain: real -> string, shown: real -> string): (st: Step)
    ensures st.result == mu && StepShape(st, "μ", MuFormula, 3, shown)
    ensures InputSubstituted(st, "μ", s, plain)
  {
    var rhss := [ MuFormula,
                  "1 / " + plain(s),
                  shown(mu) ];
    var title := "Langkah 2 — Hitung μ (laju pelayanan per loket)";
    MakeStepLines(title, "μ", MuFormula, rhss, mu, shown);
    MakeStep(title, "μ", MuFormula, rhss, mu)
  }

  /** Step 3: ρ = λ / (2μ), substituting the rounded λ and μ. */
  function RhoStep(lam: real, mu: real, rho: real, shown: real -> string): (st: Step)
    ensures st.result == rho && StepShape(st, "ρ", RhoFormula, 4, shown)
    ensures RhoSubstituted(st, lam, mu, shown)
  {
    var rhss := [ RhoFormula,
                  shown(lam) + " / (2 × " + shown(mu) + ")",
                  shown(lam) + " / " + shown(2.0 * mu),
                  shown(rho) ];
    var title := "Langkah 3 — Hitung ρ (utilisasi)";
    MakeStepLines(title, "ρ", RhoFormula, rhss, rho, shown);
    MakeStep(title, "ρ", RhoFormula, rhss, rho)
  }

  /** Step 4: W = 1 / (μ - λ/2), substituting the rounded μ, λ, λ/2 and μ - λ/2. */
  function WStep(lam: real, mu: real, w: real, shown: real -> string): (st: Step)
    ensures st.result == w && StepShape(st, "W", WFormula, 5, shown)
    ensures WSubstituted(st, lam, mu, shown)
  {
    var rhss := [ WFormula,
                  "1 / (" + shown(mu) + " - " + shown(lam) + "/2)",
                  "1 / (" + shown(mu) + " - " + shown(lam / 2.0) + ")",
                  "1 / " + shown(mu - lam / 2.0),
                  shown(w) ];
    var title := "Langkah 4 — Hitung W (waktu dalam sistem)";
    MakeStepLines(title, "W", WFormula, rhss, w, shown);
    MakeStep(title, "W", WFormula, rhss, w)
  }

  /** Step 5: Wq = λ² / (2μ(μ - λ/2)), substituting the rounded λ², 2μ, μ - λ/2 and their product. */
  function WqStep(lam: real, mu: real, wq: real, shown: real -> string): (st: Step)
    ensures st.result == wq && StepShape(st, "Wq", WqFormula, 4, shown)
    ensures WqSubstituted(st, lam, mu, shown)
  {
    var rhss := [ WqFormula,
                  shown(lam * lam) + " / (" + shown(2.0 * mu) + " × " + shown(mu - lam / 2.0) + ")",
                  shown(lam * lam) + " / " + shown((2.0 * mu) * (mu - lam / 2.0)),
                  shown(wq) ];
    var title := "Langkah 5 — Hitung Wq (waktu tunggu antrian)";
    MakeStepLines(title, "Wq", WqFormula, rhss, wq, shown);
    MakeStep(title, "Wq", WqFormula, rhss, wq)
  }

  /**
   * The five "langkah" entries, in the order λ, μ, ρ, W, Wq. `plain` is
   * fmt(x) and `shown` is fmt(x, pembulatan).
   */
  function DerivationSteps(a: real, s: real, m: Metrics, plain: real -> string, shown: real -> string)
    : (steps: seq<Step>)
    ensures WellFormed(Report(Inputs(a, s), m, steps), plain, shown)
  {
    [ LambdaStep(a, m.lambda, plain, shown),
      MuStep(s, m.mu, plain, shown),
      RhoStep(m.lambda, m.mu, m.rho, shown),
      WStep(m.lambda, m.mu, m.w, shown),
      WqStep(m.lambda, m.mu, m.wq, shown) ]
  }

  /** The five metrics in step order. */
  function MetricList(m: Metrics): seq<real> {
    [m.lambda, m.mu, m.rho, m.w, m.wq]
  }

  /**
   * The shape of a returned record: five steps in the order λ, μ, ρ, W, Wq,
   * with 3, 3, 4, 5 and 4 lines; each stores its metric at full precision.
   * Steps 1 and 2 substitute the input as given; steps 3 to 5 substitute
   * λ, μ and the intermediate quantities rounded to the display digits.
   */
  predicate WellFormed(rep: Report, plain: real -> string, shown: real -> string) {
    Shaped(rep, shown) && Substituted(rep, plain, shown)
  }

  /** Five steps in the order λ, μ, ρ, W, Wq, with 3, 3, 4, 5 and 4 lines, storing the metrics. */
  predicate Shaped(rep: Report, shown: real -> string) {
    var steps, m := rep.steps, rep.metrics;
    && |steps| == 5
    && steps[0].result == m.lambda && StepShape(steps[0], "λ", LambdaFormula, 3, shown)
    && steps[1].result == m.mu && StepShape(steps[1], "μ", MuFormula, 3, shown)
    && steps[2].result == m.rho && StepShape(steps[2], "ρ", RhoFormula, 4, shown)
    && steps[3].result == m.w && StepShape(steps[3], "W", WFormula, 5, shown)
    && steps[4].result == m.wq && StepShape(steps[4], "Wq", WqFormula, 4, shown)
  }

  /** The substitution lines of the five steps. */
  predicate Substituted(rep: Report, plain: real -> string, shown: real -> string) {
    var steps, m := rep.steps, rep.metrics;
    && |steps| == 5
    && InputSubstituted(steps[0], "λ", rep.input.interarrivalMin, plain)
    && InputSubstituted(steps[1], "μ", rep.input.serviceMin, plain)
    && RhoSubstituted(steps[2], m.lambda, m.mu, shown)
    && WSubstituted(steps[3], m.lambda, m.mu, shown)
    && WqSubstituted(steps[4], m.lambda, m.mu, shown)
  }

  /**
   * A step of `count` lines whose formula is "<sym> = <formulaRhs>": the
   * first line is that formula, every line reads "<sym> = ...", and the
   * last shows the stored result.
   */
  predicate StepShape(st: Step, sym: string, formulaRhs: string, count: nat, shown: real -> string) {
    && count >= 3
    && st.formula == Line(sym, formulaRhs)
    && |st.lines| == count
    && st.lines[0] == st.formula
    && (forall j :: 0 <= j < |st.lines| ==> StartsWith(st.lines[j], sym + " = "))
    && st.lines[count - 1] == Line(sym, shown(st.result))
  }

  /** The second line substitutes the input x, as given: "<sym> = 1 / fmt(x)". */
  predicate InputSubstituted(st: Step, sym: string, x: real, plain: real -> string) {
    |st.lines| > 1 && st.lines[1] == Line(sym, "1 / " + plain(x))
  }

  /** The substitution lines of ρ: λ / (2 × μ), then λ / 2μ, all rounded. */
  predicate RhoSubstituted(st: Step, lam: real, mu: real, shown: real -> string) {
    && |st.lines| > 2
    && st.lines[1] == Line("ρ", shown(lam) + " / (2 × " + shown(mu) + ")")
    && st.lines[2] == Line("ρ", shown(lam) + " / " + shown(2.0 * mu))
  }

  /** The substitution lines of W: 1 / (μ - λ/2), 1 / (μ - (λ/2)), 1 / (μ - λ/2), all rounded. */
  predicate WSubstituted(st: Step, lam: real, mu: real, shown: real -> string) {
    && |st.lines| > 3
    && st.lines[1] == Line("W", "1 / (" + shown(mu) + " - " + shown(lam) + "/2)")
    && st.lines[2] == Line("W", "1 / (" + shown(mu) + " - " + shown(lam / 2.0) + ")")
    && st.lines[3] == Line("W", "1 / " + shown(mu - lam / 2.0))
  }

  /** The substitution lines of Wq: λ² / (2μ × (μ - λ/2)), then λ² / their product, all rounded. */
  predicate WqSubstituted(st: Step, lam: real, mu: real, shown: real -> string) {
    && |st.lines| > 2
    && st.lines[1] == Line("Wq", shown(lam * lam) + " / (" + shown(2.0 * mu) + " × " + shown(mu - lam / 2.0) + ")")
    && st.lines[2] == Line("Wq", shown(lam * lam) + " / " + shown((2.0 * mu) * (mu - lam / 2.0)))
  }

  predicate StartsWith(line: string, prefix: string) {
    |prefix| <= |line| && line[..|prefix|] == prefix
  }

  /**
   * A step built from right-hand sides has one line "<sym> = <rhs>" per
   * right-hand side, in order; with at least three of them, the first the
   * formula and the last the shown result, it has the step shape.
   */
  lemma MakeStepLines(title: string, sym: string, formulaRhs: string, rhss: seq<string>, result: real,
                      shown: real -> string)
    requires |rhss| >= 3 && rhss[0] == formulaRhs && rhss[|rhss| - 1] == shown(result)
    ensures var st := MakeStep(title, sym, formulaRhs, rhss, result);
            && StepShape(st, sym, formulaRhs, |rhss|, shown)
            && st.title == title
            && forall j :: 0 <= j < |rhss| ==> st.lines[j] == Line(sym, rhss[j])
  {
    var st := MakeStep(title, sym, formulaRhs, rhss, result);
    forall j | 0 <= j < |st.lines|
      ensures StartsWith(st.lines[j], sym + " = ")
    {
      LineStartsWithSymbol(sym, rhss[j]);
    }
  }

  lemma LineStartsWithSymbol(sym: string, rhs: string)
    ensures StartsWith(Line(sym, rhs), sym + " = ")
  {
    assert Line(sym, rhs)[..|sym + " = "|] == sym + " = ";
  }

  /* ---------------------------------------------------------------------- */
  /* Stability                                                              */
  /* ---------------------------------------------------------------------- */

  lemma ReciprocalOrder(u: real, v: real)
    requires u > 0.0 && v > 0.0
    ensures 1.0 / u < 1.0 / v <==> v < u
  {
    assert (1.0 / u) * u == 1.0;
    assert (1.0 / v) * v == 1.0;
    if v < u {
      assert 1.0 / u * v < 1.0 / u * u;
      assert 1.0 / u < 1.0 / v;
    } else {
      assert 1.0 / v * u <= 1.0 / v * v;
      assert 1.0 / v <= 1.0 / u;
    }
  }

  /** The guard μ - λ/2 > 0 holds exactly when service_min < 2 · interarrival_min. */
  lemma StableIffServiceBelowTwiceInterarrival(a: real, s: real)
    requires a > 0.0 && s > 0.0
    ensures Stable(a, s) <==> s < 2.0 * a
  {
    assert (1.0 / a) / 2.0 == 1.0 / (2.0 * a);
    ReciprocalOrder(s, 2.0 * a);
  }

  /** The guard μ - λ/2 > 0 is the utilisation condition ρ < 1. */
  lemma StableIffUtilizationBelowOne(a: real, s: real)
    requires a > 0.0 && s > 0.0
    ensures Stable(a, s) <==> (1.0 / a) / (2.0 * (1.0 / s)) < 1.0
  {
    UtilizationClosedForm(a, s);
    StableIffServiceBelowTwiceInterarrival(a, s);
    assert s / (2.0 * a) * (2.0 * a) == s;
  }

  /* ---------------------------------------------------------------------- */
  /* The metrics of a successful calculation                                */
  /* ---------------------------------------------------------------------- */

  lemma UtilizationClosedForm(a: real, s: real)
    requires a > 0.0 && s > 0.0
    ensures (1.0 / a) / (2.0 * (1.0 / s)) == s / (2.0 * a)
  {
  }

  lemma SojournClosedForm(a: real, s: real)
    requires a > 0.0 && s > 0.0 && s < 2.0 * a
    ensures 1.0 / s - (1.0 / a) / 2.0 == (2.0 * a - s) / (2.0 * a * s)
    ensures 1.0 / (1.0 / s - (1.0 / a) / 2.0) == 2.0 * a * s / (2.0 * a - s)
  {
  }

  lemma QueueWaitClosedForm(a: real, s: real)
    requires a > 0.0 && s > 0.0 && s < 2.0 * a
    ensures (1.0 / a) * (1.0 / a) / ((2.0 * (1.0 / s)) * (1.0 / s - (1.0 / a) / 2.0))
            == s * s / (a * (2.0 * a - s))
  {
    SojournClosedForm(a, s);
  }

  /* ---------------------------------------------------------------------- */
  /* Properties of a successful calculation                                 */
  /* ---------------------------------------------------------------------- */

  /** A record is returned exactly for present, positive inputs with service_min < 2 · interarrival_min. */
  lemma SucceedsIff(interarrival: Option<real>, service: Option<real>, floatText: real -> string)
    ensures Compute(interarrival, service, floatText).Success? <==>
              interarrival.Some? && service.Some? &&
              interarrival.value > 0.0 && service.value > 0.0 &&
              service.value < 2.0 * interarrival.value
  {
    var r := Compute(interarrival, service, floatText);
    if r.Failure? {
      assert r.error.EmptyInput? || r.error.NonPositiveInput? || r.error.UnstableSystem?;
    }
  }

  /** Every metric is positive, ρ < 1, and the denominator 2μ(μ - λ/2) of Wq is positive. */
  lemma MetricsPositive(a: real, s: real)
    requires a > 0.0 && s > 0.0 && Stable(a, s)
    ensures var m := MetricsOf(a, s);
            && m.lambda > 0.0 && m.mu > 0.0 && m.rho > 0.0 && m.w > 0.0 && m.wq > 0.0
            && m.rho < 1.0
            && (2.0 * m.mu) * (m.mu - m.lambda / 2.0) > 0.0
  {
    var m := MetricsOf(a, s);
    StableIffServiceBelowTwiceInterarrival(a, s);
    assert m.mu - m.lambda / 2.0 > 0.0;
    assert 2.0 * a - s > 0.0;
    PositiveQuotient(s, 2.0 * a);
    PositiveQuotient(2.0 * a * s, 2.0 * a - s);
    PositiveQuotient(s * s, a * (2.0 * a - s));
    assert m.rho < 1.0 by {
      assert s / (2.0 * a) * (2.0 * a) == s;
    }
  }

  lemma PositiveQuotient(x: real, y: real)
    requires x > 0.0 && y > 0.0
    ensures x / y > 0.0
  {
  }

  /** Wq = ρ · λ · W: the queue wait is the sojourn time scaled by ρλ. */
  lemma WqIsRhoLambdaW(a: real, s: real)
    requires a > 0.0 && s > 0.0 && Stable(a, s)
    ensures var m := MetricsOf(a, s); m.wq == m.rho * m.lambda * m.w
  {
    var m := MetricsOf(a, s);
    StableIffServiceBelowTwiceInterarrival(a, s);
    var d := 2.0 * a - s;
    assert d > 0.0;
    assert m.rho * m.lambda == s / (2.0 * a * a);
    assert s / (2.0 * a * a) * (2.0 * a * s / d) == s * s / (a * d);
  }

  /**
   * W = Wq + service_min holds for these formulas only when interarrival_min is 1:
   * in general W - Wq - s = s²(a - 1)/(a(2a - s)).
   */
  lemma SojournIsWaitPlusServiceOnlyForUnitInterarrival(a: real, s: real)
    requires a > 0.0 && s > 0.0 && Stable(a, s)
    ensures var m := MetricsOf(a, s); m.w == m.wq + s <==> a == 1.0
  {
    StableIffServiceBelowTwiceInterarrival(a, s);
    var m := MetricsOf(a, s);
    var d := 2.0 * a - s;
    DivMul(2.0 * a * s, d);
    DivMul(s * s, a * d);
    GapTimesDenominator(a, s, d, m.w, m.wq);
    if m.w == m.wq + s {
      assert s * s * (a - 1.0) == 0.0;
      assert s * s > 0.0;
    }
  }

  /**
   * With d = 2a - s, w · d = 2as and wq · ad = s²:
   * (w - wq - s) · ad = s² (a - 1).
   */
  lemma GapTimesDenominator(a: real, s: real, d: real, w: real, wq: real)
    requires d == 2.0 * a - s
    requires w * d == 2.0 * a * s && wq * (a * d) == s * s
    ensures (w - wq - s) * (a * d) == s * s * (a - 1.0)
  {
    calc {
      (w - wq - s) * (a * d);
      a * (w * d) - wq * (a * d) - s * a * d;
      2.0 * a * a * s - s * s - s * a * (2.0 * a - s);
      s * s * (a - 1.0);
    }
  }

  /**
   * In a returned record each step stores its metric unrounded, while its
   * last line shows that metric rounded to the display digits before the
   * integral test (so a value that rounds to a whole number reads as an
   * integer).
   */
  lemma StepResultsKeepFullPrecision(rep: Report, floatText: real -> string, i: nat)
    requires Shaped(rep, ShownWith(floatText)) && i < 5
    ensures |rep.steps| == 5 && |rep.steps[i].lines| >= 3
    ensures rep.steps[i].result == MetricList(rep.metrics)[i]
    ensures var st := rep.steps[i];
            st.lines[|st.lines| - 1] == Line(Symbol(i), Fmt(RoundTo(st.result, DisplayDigits), None, floatText))
  {
    LastLineShowsResult(rep, ShownWith(floatText), i);
    FmtRoundsFirst(rep.steps[i].result, DisplayDigits, floatText);
  }

  lemma LastLineShowsResult(rep: Report, shown: real -> string, i: nat)
    requires Shaped(rep, shown) && i < 5
    ensures |rep.steps| == 5 && |rep.steps[i].lines| >= 3
    ensures rep.steps[i].result == MetricList(rep.metrics)[i]
    ensures var st := rep.steps[i]; st.lines[|st.lines| - 1] == Line(Symbol(i), shown(st.result))
  {
  }

  /**
   * Steps 3 and 4 substitute for λ and μ exactly the texts that close
   * steps 1 and 2, so the derivation reads on from the shown values.
   */
  lemma LaterStepsReuseShownRates(rep: Report, plain: real -> string, shown: real -> string)
    requires WellFormed(rep, plain, shown)
    ensures var steps := rep.steps;
            var lamText, muText := shown(steps[0].result), shown(steps[1].result);
            && steps[0].lines[2] == Line("λ", lamText)
            && steps[1].lines[2] == Line("μ", muText)
            && steps[2].lines[1] == Line("ρ", lamText + " / (2 × " + muText + ")")
            && steps[3].lines[1] == Line("W", "1 / (" + muText + " - " + lamText + "/2)")
  {
  }

  /**
   * In a returned record the inputs are substituted unrounded, while λ and
   * μ are substituted in step 3 rounded to the display digits first.
   */
  lemma SubstitutionsRoundOnlyDerivedValues(a: real, s: real, floatText: real -> string)
    requires Compute(Some(a), Some(s), floatText).Success?
    ensures var rep := Compute(Some(a), Some(s), floatText).value;
            var m := rep.metrics;
            && rep.steps[0].lines[1] == Line("λ", "1 / " + Fmt(a, None, floatText))
            && rep.steps[1].lines[1] == Line("μ", "1 / " + Fmt(s, None, floatText))
            && rep.steps[2].lines[1] ==
                 Line("ρ", Fmt(RoundTo(m.lambda, DisplayDigits), None, floatText) + " / (2 × "
                           + Fmt(RoundTo(m.mu, DisplayDigits), None, floatText) + ")")
  {
    var rep := Compute(Some(a), Some(s), floatText).value;
    assert rep.input == Inputs(a, s);
    OpeningSubstitutions(rep, floatText);
  }

  lemma OpeningSubstitutions(rep: Report, floatText: real -> string)
    requires Substituted(rep, PlainWith(floatText), ShownWith(floatText))
    ensures |rep.steps| == 5 && |rep.steps[0].lines| > 1 && |rep.steps[1].lines| > 1 && |rep.steps[2].lines| > 1
    ensures rep.steps[0].lines[1] == Line("λ", "1 / " + Fmt(rep.input.interarrivalMin, None, floatText))
    ensures rep.steps[1].lines[1] == Line("μ", "1 / " + Fmt(rep.input.serviceMin, None, floatText))
    ensures rep.steps[2].lines[1] ==
              Line("ρ", Fmt(RoundTo(rep.metrics.lambda, DisplayDigits), None, floatText) + " / (2 × "
                        + Fmt(RoundTo(rep.metrics.mu, DisplayDigits), None, floatText) + ")")
  {
    FmtRoundsFirst(rep.metrics.lambda, DisplayDigits, floatText);
    FmtRoundsFirst(rep.metrics.mu, DisplayDigits, floatText);
  }

  /** The three failure messages are distinct. */
  lemma MessagesDistinct()
    ensures EmptyInput.Message() != NonPositiveInput.Message()
    ensures EmptyInput.Message() != UnstableSystem.Message()
    ensures NonPositiveInput.Message() != UnstableSystem.Message()
  {
    assert EmptyMessage[6] != NonPositiveMessage[6];
    assert |EmptyMessage| < |UnstableMessage| && |NonPositiveMessage| < |UnstableMessage|;
  }

  /* ---------------------------------------------------------------------- */
  /* Worked examples                                                        */
  /* ---------------------------------------------------------------------- */

  /** interarrival 2, service 3: λ = 0.5, μ = 1/3, ρ = 0.75, W = 12, Wq = 4.5 (and W ≠ Wq + 3). */
  lemma ExampleTwoThree(floatText: real -> string)
    ensures Compute(Some(2.0), Some(3.0), floatText).Success?
    ensures Compute(Some(2.0), Some(3.0), floatText).value.metrics
            == Metrics(0.5, 1.0 / 3.0, 0.75, 12.0, 4.5)
  {
    StableIffServiceBelowTwiceInterarrival(2.0, 3.0);
  }

  /** interarrival 1, service 3 is unstable. */
  lemma ExampleUnstable(floatText: real -> string)
    ensures Compute(Some(1.0), Some(3.0), floatText) == Failure(UnstableSystem)
  {
  }

  /** interarrival 1, service 2 is the boundary μ - λ/2 = 0, which the guard rejects. */
  lemma ExampleBoundary(floatText: real -> string)
    ensures Compute(Some(1.0), Some(2.0), floatText) == Failure(UnstableSystem)
  {
  }

  /** A zero input is non-positive; an absent input wins over a negative one. */
  lemma ExampleInvalid(floatText: real -> string)
    ensures Compute(Some(0.0), Some(1.0), floatText) == Failure(NonPositiveInput)
    ensures Compute(None, Some(-1.0), floatText) == Failure(EmptyInput)
  {
  }
}
