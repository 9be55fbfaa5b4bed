# Diabetes risk predictor: input normalisation and result contract

This project models `predict_diabetes` (src/predict.py), the inference gateway
of a small type 2 diabetes risk predictor. One call turns a raw patient record
into exactly one result, in this order:

1. numeric fields are coerced, and missing ones take fixed defaults
   (age 0, hypertension 0, heart disease 0, HbA1c 5.0, glucose 100);
2. a BMI that is absent, NaN or blank becomes the training median `MEDIAN_BMI`;
3. four range checks run (age, BMI, HbA1c, glucose); the first one that fails
   decides the error message;
4. an unknown gender becomes "Female" and an unknown smoking history becomes
   the modal label `MODE_SMOKING`; each is then encoded as its index among the
   encoder's classes;
5. an 8-entry feature vector is assembled (gender, age, hypertension,
   heart_disease, smoking_history, bmi, HbA1c, glucose) and its four
   continuous positions are replaced by the scaler's output;
6. the classifier gives a label and a probability, and the probability is
   bucketed into Low / Medium / High;
7. every exception becomes an error whose message starts with
   "Prediction failed: ".

The whole model is in `predict.dfy`, module `Predict`, written as datatypes,
functions and lemmas, because the source is straight-line code without loops
or persistent state. The artifacts loaded at import time (the two label
encoders, the scaler, the classifier and the two imputation values) form one
immutable `Artifacts` value passed to every call. The scaler is an opaque
function on the four continuous features. The classifier's `predict` and
`predict_proba` are opaque functions that either return a value or raise.
An encoder is the sequence of its classes. `WellBehaved` states what the
success lemma assumes of the trained artifacts: both fallback labels are known
classes, the label is 0 or 1, and the probability lies in [0, 1].

Numbers are `real`. Python's `int()` on hypertension and heart disease
truncates toward zero, which `TruncateToInt` writes out. A numeric value whose
conversion raises is an `Unparsable` field that carries the exception's
message. The BMI input has its own datatype: absent/None, NaN, blank, a
number, or unconvertible.

Unparsable BMI text is not imputed by `predict_diabetes` itself. The form in
src/app.py:40-44 turns text that is not a number into `None` before the call,
so through the app such text gets the median. `predict_diabetes` calls
`float(bmi)` at src/predict.py:43, which raises on such text, so the call ends
with "Prediction failed: ..." (`BmiUnparsable`, `UnparsableFieldFails`).

Every operation of the model is a function, so `PredictDiabetes` is
deterministic: two calls with the same record and artifacts give the same
result.

## Model

| member | source | states |
|---|---|---|
| `Predict.PredictDiabetes` | src/predict.py:24-93 | every call yields exactly one of the two shapes; an error is one of the four validation messages or starts with "Prediction failed: "; a success carries the tier of its own probability |
| `Predict.TruncateToInt` | src/predict.py:34-35 | `int()` of a number truncates toward zero: the result lies within 1 of the input, on the input's side of zero |
| `Predict.NormaliseFields` | src/predict.py:33-46 | normalisation raises exactly when some numeric field does not convert, with the message of the first such field in source order; otherwise every field holds the value supplied (truncated toward zero for hypertension and heart disease) or its default, BMI holds the number supplied or the median, and gender and smoking history hold the label supplied or "Female" / the modal label |
| `Predict.ResolveBmi` | src/predict.py:39-43 | absent, NaN or blank BMI becomes the median; a number is used as given; only an unconvertible value raises |
| `Predict.Validate` | src/predict.py:49-56 | no message exactly when all four fields are in their inclusive ranges; an out-of-range age always gives the age message; each later check speaks only when every earlier one passed |
| `Predict.EndpointsAccepted` | src/predict.py:49-56 | both endpoints of every range (0/120, 10/70, 3/15, 50/600) pass validation |
| `Predict.IndexOf` | src/predict.py:61 | a known label's code is an index of the classes holding that label, and no earlier index holds it |
| `Predict.EncodeWithFallback` | src/predict.py:59-65 | encoding succeeds exactly when the label or its fallback is known; the code is in range and denotes the label if known, else the fallback |
| `Predict.EncodingInjective` | src/predict.py:59-65 | two distinct known labels get distinct codes |
| `Predict.AssembleLayout` | src/predict.py:68-77 | the feature vector has 8 entries in the trained order, with the continuous fields at positions 1, 5, 6, 7 |
| `Predict.Scale` | src/predict.py:80-81 | scaling replaces the age, BMI, HbA1c and glucose positions by the scaler's output and leaves the other four unchanged |
| `Predict.RiskLevel` | src/predict.py:90 | High exactly when p > 0.7, Medium exactly when 0.4 < p <= 0.7, Low exactly when p <= 0.4 |
| `Predict.RiskMonotone` | src/predict.py:90 | the tier never decreases as the probability grows |
| `Predict.RiskBoundaries` | src/predict.py:90 | 0.71, 0.7, 0.69, 0.41, 0.4, 0.39 map to High, Medium, Medium, Medium, Low, Low |
| `Predict.Infer` | src/predict.py:58-93 | for any artifacts: the first encoder or classifier call that raises ends the call with "Prediction failed: " followed by that call's detail; when no call raises, the result is a success holding the classifier's label and probability on the encoded, assembled and scaled vector, with its tier |
| `Predict.ValidRecordReachesInference` | src/predict.py:33-93 | a record whose fields all convert and whose supplied values (defaults filled in) are in range goes on to encoding and inference, so its result is exactly what `Infer` states |
| `Predict.UnparsableFieldFails` | src/predict.py:33-43 | a numeric field whose conversion raises ends the call with "Prediction failed: ...", whatever the ranges of the other fields |
| `Predict.ValidationShortCircuits` | src/predict.py:33-56 | for a record whose fields all convert and whose supplied values (defaults filled in) fail a range check, the check's message on those values is the whole result; encoders, scaler and classifier play no part in it |
| `Predict.FirstFailingCheckDecides` | src/predict.py:33-56 | on a record whose fields all convert, the supplied age, BMI, HbA1c and glucose (defaults filled in) are checked in that order, and the first out-of-range one decides the message |
| `Predict.AgeOutOfRangeDecides` | src/predict.py:49-50 | an out-of-range age gives the age message whatever the other convertible fields hold |
| `Predict.ValidRecordSucceeds` | src/predict.py:33-91 | a record whose fields all convert and whose supplied values (defaults filled in) are in range, on well-behaved artifacts succeeds with a label in {0, 1}, a probability in [0, 1] and its tier, computed from the encoded, assembled and scaled vector; hypertension and heart disease are not range-checked |
| `Predict.EmptyRecordDefaults` | src/predict.py:33-46 | the all-missing record normalises to the fixed defaults, and with an in-range median BMI it passes validation (default age 0 included) |
| `Predict.MissingMeansDefault` | src/predict.py:33-46 | leaving out any field gives the same result as supplying its default |
| `Predict.BmiImputed` | src/predict.py:39-43 | an absent, NaN or blank BMI gives the same result as the median BMI supplied explicitly |
| `Predict.UnknownGenderFallsBack` | src/predict.py:59-61 | a gender the encoder does not know gives the same result as "Female" |
| `Predict.UnknownSmokingFallsBack` | src/predict.py:63-65 | a smoking history the encoder does not know gives the same result as the modal label |

## Left out

- Loading the artifacts with joblib and json at import time (src/predict.py:13-22): this is I/O. The loaded values are the `Artifacts` parameter.
- The internals of the scaler's `transform`, the classifier's `predict` and `predict_proba`, and `LabelEncoder.transform`: these are foreign library calls on trained artifacts and are opaque functions here. The scaler is taken never to raise.
- Conversion of strings to numbers and pandas' `isna`: a field either converts to a real, or raises with some message (`Unparsable`, `BmiUnparsable`). The parsing itself is not modelled.
- IEEE floating point. A NaN age, HbA1c or glucose, and the BMI text "nan" (which converts to NaN), pass every comparison in the source. Reals cannot represent this, so the model does not capture it.
- The exact text of exception messages after "Prediction failed: ". The text used for an unknown label reaching the encoder is a stand-in for the library's.
- The `str()` conversion of gender and smoking history: the model receives the resulting string.
- The risk level is a `Risk` value; `Risk.Name` gives the source's strings "Low", "Medium" and "High".
- src/app.py, the Streamlit form and rendering, is not part of this model. That includes its own BMI pre-parse and its duplicated risk-tier messages.
