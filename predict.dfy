/**
 Input normalisation and result contract of the diabetes risk predictor
 (`predict_diabetes` in src/predict.py).

 A raw attribute mapping is turned into exactly one `Prediction`: field
 defaults and coercion, BMI imputation, range validation (first failure
 wins), categorical fallback and encoding, assembly of the 8-entry feature
 vector, scaling of its four continuous positions, inference and risk
 bucketing. Every exception raised along the way becomes an `Error` whose
 message starts with "Prediction failed: ".

 The trained artifacts are one immutable `Artifacts` value given as a
 parameter; the classifier and the scaler are opaque functions in it.
 */
module Predict {

  datatype Option<+T> = None | Some(value: T)

  /** What a coercion or a library call yields: its value, or the message of
      the exception it raised. */
  datatype Outcome<+T> = Returned(value: T) | Raised(detail: string)

  /** A numeric field of the input mapping before coercion: the key is absent,
      or the field's own converter (`float()` for age, HbA1c and glucose,
      `int()` for hypertension and heart disease) accepts its value, giving
      the number `x`, or that converter raises. A text such as "1.5" is thus
      `Num(1.5)` for a `float()` field but `Unparsable` for an `int()` one. */
  datatype Raw = Missing | Num(x: real) | Unparsable(detail: string)

  /** The `bmi` entry: absent or None, a NaN, a string with nothing but
      whitespace, a value that converts to a number, or one whose conversion
      raises. */
  datatype BmiInput =
    | BmiAbsent
    | BmiNaN
    | BmiBlank
    | BmiNumber(x: real)
    | BmiUnparsable(detail: string)

  /** The input mapping. `gender` and `smokingHistory` are `Some(s)` when the
      key is present, `s` being the `str()` of its value. */
  datatype Record = Record(
    gender: Option<string>,
    age: Raw,
    hypertension: Raw,
    heartDisease: Raw,
    smokingHistory: Option<string>,
    bmi: BmiInput,
    hba1c: Raw,
    glucose: Raw)

  /** The record once every field is coerced and defaulted. */
  datatype Normalised = Normalised(
    gender: string,
    age: real,
    hypertension: int,
    heartDisease: int,
    smoking: string,
    bmi: real,
    hba1c: real,
    glucose: real)

  /** The four continuous features, in the scaler's column order. */
  datatype Continuous = Continuous(age: real, bmi: real, hba1c: real, glucose: real)

  /** The artifacts loaded once at start-up and only read afterwards: the
      classes of the two label encoders (a label's code is its index), the
      imputation values, the fitted scaler and the classifier's two calls. */
  datatype Artifacts = Artifacts(
    genderClasses: seq<string>,
    smokingClasses: seq<string>,
    medianBmi: real,
    modeSmoking: string,
    scaler: Continuous -> Continuous,
    predictLabel: seq<real> -> Outcome<int>,
    predictProba: seq<real> -> Outcome<real>)

  datatype Risk = Low | Medium | High {
    /** The `risk_level` text of the result. */
    function Name(): string {
      match this
      case Low => "Low"
      case Medium => "Medium"
      case High => "High"
    }

    function Rank(): nat {
      match this
      case Low => 0
      case Medium => 1
      case High => 2
    }
  }

  /** The two result shapes: `{"error": message}` or
      `{"diabetes", "probability", "risk_level"}`. */
  datatype Prediction =
    | Error(message: string)
    | Success(diabetes: int, probability: real, riskLevel: Risk)

  const FailedPrefix := "Prediction failed: "
  const AgeMessage := "Age must be between 0 and 120"
  const BmiMessage := "BMI must be between 10 and 70"
  const HbA1cMessage := "HbA1c must be between 3 and 15"
  const GlucoseMessage := "Blood glucose must be between 50 and 600"
  const ValidationMessages := {AgeMessage, BmiMessage, HbA1cMessage, GlucoseMessage}

  /** Fallback label for a gender the encoder does not know. */
  const DefaultGender := "Female"

  /** Positions of the feature vector, in the order the classifier was trained on. */
  const GenderPos := 0
  const AgePos := 1
  const HypertensionPos := 2
  const HeartDiseasePos := 3
  const SmokingPos := 4
  const BmiPos := 5
  const HbA1cPos := 6
  const GlucosePos := 7
  const FeatureCount := 8

  // ---------------------------------------------------------------------
  // Coercion and defaults
  // ---------------------------------------------------------------------

  /** `float(input_data.get(key, default))`. */
  function CoerceReal(f: Raw, default: real): Outcome<real> {
    match f
    case Missing => Returned(default)
    case Num(x) => Returned(x)
    case Unparsable(d) => Raised(d)
  }

  /** Python's `int()` on a number: truncation toward zero. */
  function TruncateToInt(x: real): (r: int)
    ensures 0.0 <= x ==> 0 <= r && r as real <= x < r as real + 1.0
    ensures x < 0.0 ==> r <= 0 && r as real - 1.0 < x <= r as real
  {
    if 0.0 <= x then x.Floor else -((-x).Floor)
  }

  /** `int(input_data.get(key, default))`. */
  function CoerceInt(f: Raw, default: int): Outcome<int> {
    match f
    case Missing => Returned(default)
    case Num(x) => Returned(TruncateToInt(x))
    case Unparsable(d) => Raised(d)
  }

  /** BMI imputation: absent, NaN or blank becomes the training median;
      anything else is converted as given. */
  function ResolveBmi(b: BmiInput, medianBmi: real): (r: Outcome<real>)
    ensures r.Raised? <==> b.BmiUnparsable?
    ensures b.BmiNumber? ==> r == Returned(b.x)
    ensures !b.BmiNumber? && !b.BmiUnparsable? ==> r == Returned(medianBmi)
  {
    match b
    case BmiAbsent => Returned(medianBmi)
    case BmiNaN => Returned(medianBmi)
    case BmiBlank => Returned(medianBmi)
    case BmiNumber(x) => Returned(x)
    case BmiUnparsable(d) => Raised(d)
  }

  /** The number a `float()` field contributes when it converts: the value
      supplied, or the default when the key is absent. */
  function NumOr(f: Raw, default: real): real {
    if f.Num? then f.x else default
  }

  /** The BMI that is validated when the entry converts: the number supplied,
      or the median otherwise. */
  function BmiOr(b: BmiInput, medianBmi: real): real {
    if b.BmiNumber? then b.x else medianBmi
  }

  /** Coerces and defaults every field, in the order the source does; the
      first conversion that raises ends the call. */
  function Normalise(rec: Record, medianBmi: real, modeSmoking: string): Outcome<Normalised>
  {
    match CoerceReal(rec.age, 0.0)
    case Raised(d) => Raised(d)
    case Returned(age) =>
      match CoerceInt(rec.hypertension, 0)
      case Raised(d) => Raised(d)
      case Returned(hypertension) =>
        match CoerceInt(rec.heartDisease, 0)
        case Raised(d) => Raised(d)
        case Returned(heartDisease) =>
          match CoerceReal(rec.hba1c, 5.0)
          case Raised(d) => Raised(d)
          case Returned(hba1c) =>
            match CoerceReal(rec.glucose, 100.0)
            case Raised(d) => Raised(d)
            case Returned(glucose) =>
              match ResolveBmi(rec.bmi, medianBmi)
              case Raised(d) => Raised(d)
              case Returned(bmi) =>
                var gender := match rec.gender case Some(g) => g case None => DefaultGender;
                var smoking := match rec.smokingHistory case Some(s) => s case None => modeSmoking;
                Returned(Normalised(gender, age, hypertension, heartDisease, smoking, bmi, hba1c, glucose))
  }

  /** What normalisation makes of each field: it raises exactly when some
      numeric field does not convert, with the first such field's message;
      otherwise each field holds the value supplied (truncated for the `int()`
      fields) or its default, and BMI holds the number supplied or the median. */
  lemma NormaliseFields(rec: Record, medianBmi: real, modeSmoking: string)
    ensures var r := Normalise(rec, medianBmi, modeSmoking);
      r.Raised? <==> HasUnparsableField(rec)
    ensures var r := Normalise(rec, medianBmi, modeSmoking);
      && (rec.age.Unparsable? ==> r == Raised(rec.age.detail))
      && (!rec.age.Unparsable? && rec.hypertension.Unparsable? ==> r == Raised(rec.hypertension.detail))
      && (!rec.age.Unparsable? && !rec.hypertension.Unparsable? && rec.heartDisease.Unparsable? ==>
            r == Raised(rec.heartDisease.detail))
      && (!rec.age.Unparsable? && !rec.hypertension.Unparsable? && !rec.heartDisease.Unparsable? ==>
            rec.hba1c.Unparsable? ==> r == Raised(rec.hba1c.detail))
      && (!rec.age.Unparsable? && !rec.hypertension.Unparsable? && !rec.heartDisease.Unparsable? ==>
            !rec.hba1c.Unparsable? && rec.glucose.Unparsable? ==> r == Raised(rec.glucose.detail))
      && (!rec.age.Unparsable? && !rec.hypertension.Unparsable? && !rec.heartDisease.Unparsable? ==>
            !rec.hba1c.Unparsable? && !rec.glucose.Unparsable? && rec.bmi.BmiUnparsable? ==>
            r == Raised(rec.bmi.detail))
    ensures var r := Normalise(rec, medianBmi, modeSmoking);
      r.Returned? ==>
        && r.value.age == (if rec.age.Num? then rec.age.x else 0.0)
        && r.value.hypertension == (if rec.hypertension.Num? then TruncateToInt(rec.hypertension.x) else 0)
        && r.value.heartDisease == (if rec.heartDisease.Num? then TruncateToInt(rec.heartDisease.x) else 0)
        && r.value.hba1c == (if rec.hba1c.Num? then rec.hba1c.x else 5.0)
        && r.value.glucose == (if rec.glucose.Num? then rec.glucose.x else 100.0)
        && r.value.bmi == (if rec.bmi.BmiNumber? then rec.bmi.x else medianBmi)
        && r.value.gender == (if rec.gender.Some? then rec.gender.value else DefaultGender)
        && r.value.smoking == (if rec.smokingHistory.Some? then rec.smokingHistory.value else modeSmoking)
  {
  }

  /** True when some numeric field cannot be converted. */
  predicate HasUnparsableField(rec: Record) {
    rec.age.Unparsable? || rec.hypertension.Unparsable? || rec.heartDisease.Unparsable?
    || rec.hba1c.Unparsable? || rec.glucose.Unparsable? || rec.bmi.BmiUnparsable?
  }

  // ---------------------------------------------------------------------
  // Range validation
  // ---------------------------------------------------------------------

  predicate Within(x: real, lo: real, hi: real) {
    lo <= x <= hi
  }

  predicate InRanges(age: real, bmi: real, hba1c: real, glucose: real) {
    Within(age, 0.0, 120.0) && Within(bmi, 10.0, 70.0)
    && Within(hba1c, 3.0, 15.0) && Within(glucose, 50.0, 600.0)
  }

  /** The range checks read on the record itself, defaults filled in. */
  predicate RecordInRanges(rec: Record, medianBmi: real) {
    InRanges(NumOr(rec.age, 0.0), BmiOr(rec.bmi, medianBmi), NumOr(rec.hba1c, 5.0), NumOr(rec.glucose, 100.0))
  }

  /** The four range checks, age, BMI, HbA1c, glucose; the first that fails
      decides the message. */
  function Validate(age: real, bmi: real, hba1c: real, glucose: real): (r: Option<string>)
    ensures r == None <==> InRanges(age, bmi, hba1c, glucose)
    ensures r.Some? ==> r.value in ValidationMessages
    ensures !Within(age, 0.0, 120.0) ==> r == Some(AgeMessage)
    ensures Within(age, 0.0, 120.0) && !Within(bmi, 10.0, 70.0) ==> r == Some(BmiMessage)
    ensures Within(age, 0.0, 120.0) && Within(bmi, 10.0, 70.0) ==>
              !Within(hba1c, 3.0, 15.0) ==> r == Some(HbA1cMessage)
    ensures Within(age, 0.0, 120.0) && Within(bmi, 10.0, 70.0) && Within(hba1c, 3.0, 15.0) ==>
              !Within(glucose, 50.0, 600.0) ==> r == Some(GlucoseMessage)
  {
    if age < 0.0 || age > 120.0 then Some(AgeMessage)
    else if bmi < 10.0 || bmi > 70.0 then Some(BmiMessage)
    else if hba1c < 3.0 || hba1c > 15.0 then Some(HbA1cMessage)
    else if glucose < 50.0 || glucose > 600.0 then Some(GlucoseMessage)
    else None
  }

  /** Every bound is inclusive: both endpoints of each range pass. */
  lemma EndpointsAccepted(age: real, bmi: real, hba1c: real, glucose: real)
    requires age == 0.0 || age == 120.0
    requires bmi == 10.0 || bmi == 70.0
    requires hba1c == 3.0 || hba1c == 15.0
    requires glucose == 50.0 || glucose == 600.0
    ensures Validate(age, bmi, hba1c, glucose) == None
  {
  }

  // ---------------------------------------------------------------------
  // Categorical fallback and encoding
  // ---------------------------------------------------------------------

  /** The code of a known category: its (first) index among the classes. */
  function IndexOf(classes: seq<string>, category: string): (r: nat)
    requires category in classes
    ensures r < |classes| && classes[r] == category
    ensures forall j :: 0 <= j < r ==> classes[j] != category
  {
    if classes[0] == category then 0 else 1 + IndexOf(classes[1..], category)
  }

  /** Replaces an unknown category by the fallback, then encodes it. Encoding a
      category the encoder does not know raises. */
  function EncodeWithFallback(classes: seq<string>, category: string, fallback: string): (r: Outcome<nat>)
    ensures r.Returned? <==> category in classes || fallback in classes
    ensures r.Returned? ==> r.value < |classes|
    ensures r.Returned? && category in classes ==> classes[r.value] == category
    ensures r.Returned? && category !in classes ==> classes[r.value] == fallback
  {
    var chosen := if category in classes then category else fallback;
    if chosen in classes then Returned(IndexOf(classes, chosen))
    else Raised("y contains previously unseen labels: " + chosen)
  }

  /** Distinct known labels get distinct codes. */
  lemma EncodingInjective(classes: seq<string>, x: string, y: string, fallback: string)
    requires x in classes && y in classes && x != y
    ensures EncodeWithFallback(classes, x, fallback) != EncodeWithFallback(classes, y, fallback)
  {
  }

  // ---------------------------------------------------------------------
  // Feature vector and scaling
  // ---------------------------------------------------------------------

  /** The one-row frame handed to the scaler and the classifier. */
  function Assemble(genderCode: nat, n: Normalised, smokingCode: nat): seq<real> {
    [genderCode as real, n.age, n.hypertension as real, n.heartDisease as real,
     smokingCode as real, n.bmi, n.hba1c, n.glucose]
  }

  /** The four continuous columns of a feature vector. */
  function ContinuousOf(v: seq<real>): Continuous
    requires |v| == FeatureCount
  {
    Continuous(v[AgePos], v[BmiPos], v[HbA1cPos], v[GlucosePos])
  }

  /** The assembled vector has 8 entries in the trained order. */
  lemma AssembleLayout(genderCode: nat, n: Normalised, smokingCode: nat)
    ensures var v := Assemble(genderCode, n, smokingCode);
      && |v| == FeatureCount
      && v[GenderPos] == genderCode as real
      && v[HypertensionPos] == n.hypertension as real
      && v[HeartDiseasePos] == n.heartDisease as real
      && v[SmokingPos] == smokingCode as real
      && ContinuousOf(v) == Continuous(n.age, n.bmi, n.hba1c, n.glucose)
  {
  }

  /** Overwrites the continuous columns with the scaler's output. */
  function Scale(v: seq<real>, scaler: Continuous -> Continuous): (r: seq<real>)
    requires |v| == FeatureCount
    ensures |r| == FeatureCount
    ensures ContinuousOf(r) == scaler(ContinuousOf(v))
    ensures forall i :: 0 <= i < FeatureCount && i !in {AgePos, BmiPos, HbA1cPos, GlucosePos}
              ==> r[i] == v[i]
  {
    var c := scaler(ContinuousOf(v));
    v[AgePos := c.age][BmiPos := c.bmi][HbA1cPos := c.hba1c][GlucosePos := c.glucose]
  }

  // ---------------------------------------------------------------------
  // Risk bucketing
  // ---------------------------------------------------------------------

  /** Tier of a probability: strictly above 0.7 is High, strictly above 0.4
      is Medium, anything else Low. */
  function RiskLevel(p: real): (r: Risk)
    ensures r == High <==> p > 0.7
    ensures r == Medium <==> 0.4 < p <= 0.7
    ensures r == Low <==> p <= 0.4
  {
    if p > 0.7 then High else if p > 0.4 then Medium else Low
  }

  /** The tier never goes down as the probability grows. */
  lemma RiskMonotone(p: real, q: real)
    requires p <= q
    ensures RiskLevel(p).Rank() <= RiskLevel(q).Rank()
  {
  }

  /** The thresholds themselves fall into the lower tier. */
  lemma RiskBoundaries()
    ensures RiskLevel(0.71) == High && RiskLevel(0.7) == Medium && RiskLevel(0.69) == Medium
    ensures RiskLevel(0.41) == Medium && RiskLevel(0.4) == Low && RiskLevel(0.39) == Low
  {
  }

  // ---------------------------------------------------------------------
  // The whole call
  // ---------------------------------------------------------------------

  /** Encoding, assembly, scaling, inference and the success shape, for a
      record that passed validation. */
  function Infer(a: Artifacts, n: Normalised): (r: Prediction)
    ensures r.Error? ==> FailedPrefix <= r.message
    ensures r.Success? ==> r.riskLevel == RiskLevel(r.probability)
    ensures var g := EncodeWithFallback(a.genderClasses, n.gender, DefaultGender);
      g.Raised? ==> r == Error(FailedPrefix + g.detail)
    ensures var g := EncodeWithFallback(a.genderClasses, n.gender, DefaultGender);
      var s := EncodeWithFallback(a.smokingClasses, n.smoking, a.modeSmoking);
      g.Returned? && s.Raised? ==> r == Error(FailedPrefix + s.detail)
    ensures var g := EncodeWithFallback(a.genderClasses, n.gender, DefaultGender);
      var s := EncodeWithFallback(a.smokingClasses, n.smoking, a.modeSmoking);
      g.Returned? && s.Returned? ==>
        var v := Scale(Assemble(g.value, n, s.value), a.scaler);
        && (a.predictLabel(v).Raised? ==> r == Error(FailedPrefix + a.predictLabel(v).detail))
        && (a.predictLabel(v).Returned? && a.predictProba(v).Raised? ==>
              r == Error(FailedPrefix + a.predictProba(v).detail))
        && (a.predictLabel(v).Returned? && a.predictProba(v).Returned? ==>
              r == Success(a.predictLabel(v).value, a.predictProba(v).value,
                               RiskLevel(a.predictProba(v).value)))
  {
    match EncodeWithFallback(a.genderClasses, n.gender, DefaultGender)
    case Raised(d) => Error(FailedPrefix + d)
    case Returned(genderCode) =>
      match EncodeWithFallback(a.smokingClasses, n.smoking, a.modeSmoking)
      case Raised(d) => Error(FailedPrefix + d)
      case Returned(smokingCode) =>
        var v := Scale(Assemble(genderCode, n, smokingCode), a.scaler);
        match a.predictLabel(v)
        case Raised(d) => Error(FailedPrefix + d)
        case Returned(diabetes) =>
          match a.predictProba(v)
          case Raised(d) => Error(FailedPrefix + d)
          case Returned(p) => Success(diabetes, p, RiskLevel(p))
  }

  /** `predict_diabetes`: one record in, exactly one of the two result shapes
      out. An error carries either one of the four validation messages or a
      message starting with "Prediction failed: ". */
  function PredictDiabetes(a: Artifacts, rec: Record): (r: Prediction)
    ensures r.Error? ==> r.message in ValidationMessages || FailedPrefix <= r.message
    ensures r.Success? ==> r.riskLevel == RiskLevel(r.probability)
  {
    match Normalise(rec, a.medianBmi, a.modeSmoking)
    case Raised(d) => Error(FailedPrefix + d)
    case Returned(n) =>
      match Validate(n.age, n.bmi, n.hba1c, n.glucose)
      case Some(m) => Error(m)
      case None => Infer(a, n)
  }

  // ---------------------------------------------------------------------
  // Properties of the whole call
  // ---------------------------------------------------------------------

  /** What the trained artifacts are taken to guarantee: both fallback labels
      are known classes, and on any 8-entry vector the classifier returns a
      label in {0, 1} and a probability in [0, 1]. */
  ghost predicate WellBehaved(a: Artifacts) {
    && DefaultGender in a.genderClasses
    && a.modeSmoking in a.smokingClasses
    && (forall v: seq<real> | |v| == FeatureCount ::
          a.predictLabel(v).Returned? && a.predictLabel(v).value in {0, 1})
    && (forall v: seq<real> | |v| == FeatureCount ::
          a.predictProba(v).Returned? && 0.0 <= a.predictProba(v).value <= 1.0)
  }

  /** A conversion that raises ends the call with "Prediction failed: ...",
      before validation, whatever the ranges of the other fields. */
  lemma UnparsableFieldFails(a: Artifacts, rec: Record)
    requires HasUnparsableField(rec)
    ensures PredictDiabetes(a, rec).Error?
    ensures FailedPrefix <= PredictDiabetes(a, rec).message
  {
  }

  /** Once validation fails its message is the whole result: no encoding or
      inference happens, so the encoders, scaler and classifier play no part. */
  lemma ValidationShortCircuits(a: Artifacts, rec: Record)
    requires !HasUnparsableField(rec)
    requires !RecordInRanges(rec, a.medianBmi)
    ensures PredictDiabetes(a, rec)
      == Error(Validate(NumOr(rec.age, 0.0), BmiOr(rec.bmi, a.medianBmi),
                        NumOr(rec.hba1c, 5.0), NumOr(rec.glucose, 100.0)).value)
    ensures forall b: Artifacts :: b.medianBmi == a.medianBmi && b.modeSmoking == a.modeSmoking
              ==> PredictDiabetes(b, rec) == PredictDiabetes(a, rec)
  {
    NormaliseFields(rec, a.medianBmi, a.modeSmoking);
  }

  /** A record that converts and passes validation goes on to encoding and
      inference, whatever the artifacts: a raising encoder or classifier call
      then ends the call as `Infer` states. */
  lemma ValidRecordReachesInference(a: Artifacts, rec: Record)
    requires !HasUnparsableField(rec)
    requires RecordInRanges(rec, a.medianBmi)
    ensures Normalise(rec, a.medianBmi, a.modeSmoking).Returned?
    ensures PredictDiabetes(a, rec) == Infer(a, Normalise(rec, a.medianBmi, a.modeSmoking).value)
  {
    NormaliseFields(rec, a.medianBmi, a.modeSmoking);
  }

  /** An age out of [0, 120] gives the age message whatever the other fields
      hold, as long as they convert. */
  lemma AgeOutOfRangeDecides(a: Artifacts, rec: Record)
    requires !HasUnparsableField(rec)
    requires rec.age.Num? && !Within(rec.age.x, 0.0, 120.0)
    ensures PredictDiabetes(a, rec) == Error(AgeMessage)
  {
  }

  /** On a record whose fields all convert, the first range check that fails
      on the supplied values (defaults filled in) decides the message. */
  lemma FirstFailingCheckDecides(a: Artifacts, rec: Record)
    requires !HasUnparsableField(rec)
    ensures var age, bmi := NumOr(rec.age, 0.0), BmiOr(rec.bmi, a.medianBmi);
      var hba1c, glucose := NumOr(rec.hba1c, 5.0), NumOr(rec.glucose, 100.0);
      && (!Within(age, 0.0, 120.0) ==> PredictDiabetes(a, rec) == Error(AgeMessage))
      && (Within(age, 0.0, 120.0) && !Within(bmi, 10.0, 70.0) ==> PredictDiabetes(a, rec) == Error(BmiMessage))
      && (Within(age, 0.0, 120.0) && Within(bmi, 10.0, 70.0) && !Within(hba1c, 3.0, 15.0) ==>
            PredictDiabetes(a, rec) == Error(HbA1cMessage))
      && (Within(age, 0.0, 120.0) && Within(bmi, 10.0, 70.0) && Within(hba1c, 3.0, 15.0) ==>
            !Within(glucose, 50.0, 600.0) ==> PredictDiabetes(a, rec) == Error(GlucoseMessage))
  {
    NormaliseFields(rec, a.medianBmi, a.modeSmoking);
  }

  /** A record that converts and is in range succeeds with a binary label, a
      probability in [0, 1] and its tier; the classifier sees the encoded,
      assembled and scaled vector. Hypertension and heart disease are not
      range-checked: any values succeed. */
  lemma ValidRecordSucceeds(a: Artifacts, rec: Record)
    requires WellBehaved(a)
    requires !HasUnparsableField(rec)
    requires RecordInRanges(rec, a.medianBmi)
    ensures Normalise(rec, a.medianBmi, a.modeSmoking).Returned?
    ensures var r := PredictDiabetes(a, rec);
      && r.Success?
      && r.diabetes in {0, 1}
      && 0.0 <= r.probability <= 1.0
      && r.riskLevel == RiskLevel(r.probability)
    ensures var n := Normalise(rec, a.medianBmi, a.modeSmoking).value;
      var g := if n.gender in a.genderClasses then n.gender else DefaultGender;
      var s := if n.smoking in a.smokingClasses then n.smoking else a.modeSmoking;
      var v := Scale(Assemble(IndexOf(a.genderClasses, g), n, IndexOf(a.smokingClasses, s)), a.scaler);
      PredictDiabetes(a, rec)
        == Success(a.predictLabel(v).value, a.predictProba(v).value, RiskLevel(a.predictProba(v).value))
  {
    NormaliseFields(rec, a.medianBmi, a.modeSmoking);
  }

  /** The all-missing record. */
  const EmptyRecord := Record(None, Missing, Missing, Missing, None, BmiAbsent, Missing, Missing)

  /** Missing fields take their defaults, and the defaults pass validation
      whenever the training median BMI is itself in range. */
  lemma EmptyRecordDefaults(a: Artifacts)
    ensures Normalise(EmptyRecord, a.medianBmi, a.modeSmoking)
      == Returned(Normalised(DefaultGender, 0.0, 0, 0, a.modeSmoking, a.medianBmi, 5.0, 100.0))
    ensures Within(a.medianBmi, 10.0, 70.0) ==> PredictDiabetes(a, EmptyRecord) == Infer(a,
      Normalised(DefaultGender, 0.0, 0, 0, a.modeSmoking, a.medianBmi, 5.0, 100.0))
  {
  }

  /** An absent field behaves exactly like its default given explicitly. */
  lemma MissingMeansDefault(a: Artifacts, rec: Record)
    ensures PredictDiabetes(a, rec.(age := Missing)) == PredictDiabetes(a, rec.(age := Num(0.0)))
    ensures PredictDiabetes(a, rec.(hypertension := Missing))
      == PredictDiabetes(a, rec.(hypertension := Num(0.0)))
    ensures PredictDiabetes(a, rec.(heartDisease := Missing))
      == PredictDiabetes(a, rec.(heartDisease := Num(0.0)))
    ensures PredictDiabetes(a, rec.(hba1c := Missing)) == PredictDiabetes(a, rec.(hba1c := Num(5.0)))
    ensures PredictDiabetes(a, rec.(glucose := Missing))
      == PredictDiabetes(a, rec.(glucose := Num(100.0)))
    ensures PredictDiabetes(a, rec.(gender := None))
      == PredictDiabetes(a, rec.(gender := Some(DefaultGender)))
    ensures PredictDiabetes(a, rec.(smokingHistory := None))
      == PredictDiabetes(a, rec.(smokingHistory := Some(a.modeSmoking)))
  {
    var s := a.modeSmoking;
    SameNormalisation(a, rec.(age := Missing), rec.(age := Num(0.0)));
    SameNormalisation(a, rec.(hypertension := Missing), rec.(hypertension := Num(0.0)));
    SameNormalisation(a, rec.(heartDisease := Missing), rec.(heartDisease := Num(0.0)));
    SameNormalisation(a, rec.(hba1c := Missing), rec.(hba1c := Num(5.0)));
    SameNormalisation(a, rec.(glucose := Missing), rec.(glucose := Num(100.0)));
    SameNormalisation(a, rec.(gender := None), rec.(gender := Some(DefaultGender)));
    SameNormalisation(a, rec.(smokingHistory := None), rec.(smokingHistory := Some(s)));
  }

  /** Two records that normalise alike give the same result. */
  lemma SameNormalisation(a: Artifacts, r1: Record, r2: Record)
    requires Normalise(r1, a.medianBmi, a.modeSmoking) == Normalise(r2, a.medianBmi, a.modeSmoking)
    ensures PredictDiabetes(a, r1) == PredictDiabetes(a, r2)
  {
  }


  /** An absent, NaN or blank BMI behaves exactly like the median BMI given
      explicitly; that median is then range-checked like any other BMI. */
  lemma BmiImputed(a: Artifacts, rec: Record)
    requires rec.bmi.BmiAbsent? || rec.bmi.BmiNaN? || rec.bmi.BmiBlank?
    ensures PredictDiabetes(a, rec) == PredictDiabetes(a, rec.(bmi := BmiNumber(a.medianBmi)))
  {
    assert Normalise(rec, a.medianBmi, a.modeSmoking)
      == Normalise(rec.(bmi := BmiNumber(a.medianBmi)), a.medianBmi, a.modeSmoking);
  }

  /** An unknown gender is encoded as "Female": the call cannot tell the two
      apart. */
  lemma UnknownGenderFallsBack(a: Artifacts, rec: Record, g: string)
    requires g !in a.genderClasses
    ensures PredictDiabetes(a, rec.(gender := Some(g)))
      == PredictDiabetes(a, rec.(gender := Some(DefaultGender)))
  {
    var m, mode := a.medianBmi, a.modeSmoking;
    assert EncodeWithFallback(a.genderClasses, g, DefaultGender)
      == EncodeWithFallback(a.genderClasses, DefaultGender, DefaultGender);
    var o := Normalise(rec.(gender := Some(g)), m, mode);
    if o.Returned? {
      var n := o.value;
      assert Normalise(rec.(gender := Some(DefaultGender)), m, mode) == Returned(n.(gender := DefaultGender));
      assert Infer(a, n) == Infer(a, n.(gender := DefaultGender));
    }
  }

  /** An unknown smoking history is encoded as the modal label: the call
      cannot tell the two apart. */
  lemma UnknownSmokingFallsBack(a: Artifacts, rec: Record, s: string)
    requires s !in a.smokingClasses
    ensures PredictDiabetes(a, rec.(smokingHistory := Some(s)))
      == PredictDiabetes(a, rec.(smokingHistory := Some(a.modeSmoking)))
  {
    var m, mode := a.medianBmi, a.modeSmoking;
    assert EncodeWithFallback(a.smokingClasses, s, mode) == EncodeWithFallback(a.smokingClasses, mode, mode);
    var o := Normalise(rec.(smokingHistory := Some(s)), m, mode);
    if o.Returned? {
      var n := o.value;
      assert Normalise(rec.(smokingHistory := Some(mode)), m, mode) == Returned(n.(smoking := mode));
      assert Infer(a, n) == Infer(a, n.(smoking := mode));
    }
  }
}
