/** Body-mass-index classification and the diet and exercise suggestions
    chosen from it. */
module Bmi {

  /** The one failure the classification can meet: a height of 0 makes the
      formula divide by zero. */
  datatype Error = DivisionByZero

  datatype Result<T> = Ok(value: T) | Err(error: Error)

  /** The three bands; there is no separate "obese" band. */
  datatype Category = Underweight | Normal | Overweight

  datatype BmiReading = BmiReading(bmi: real, status: Category)

  /** The band a BMI value falls into: below 18.5, from 18.5 up to but not
      including 25, and 25 or more. */
  function Classify(bmi: real): (c: Category)
    ensures c == Underweight <==> bmi < 18.5
    ensures c == Normal <==> 18.5 <= bmi < 25.0
    ensures c == Overweight <==> 25.0 <= bmi
  {
    if bmi < 18.5 then Underweight
    else if bmi < 25.0 then Normal
    else Overweight
  }

  /** BMI from weight in kg and height in cm, with its band. A height of 0
      fails; any other height is accepted, as is any weight. */
  function BmiStatus(weight: real, heightCm: real): (r: Result<BmiReading>)
    ensures r.Ok? <==> heightCm != 0.0
    ensures r.Ok? ==> r.value.bmi * ((heightCm / 100.0) * (heightCm / 100.0)) == weight
    ensures r.Ok? ==> r.value.status == Classify(r.value.bmi)
  {
    if heightCm == 0.0 then Err(DivisionByZero)
    else
      var h := heightCm / 100.0;
      assert h * h != 0.0 by { NonZeroSquare(h); }
      var bmi := weight / (h * h);
      Ok(BmiReading(bmi, Classify(bmi)))
  }

  lemma NonZeroSquare(h: real)
    requires h != 0.0
    ensures h * h > 0.0
  {
    if h < 0.0 {
      assert h * h == (-h) * (-h);
    }
  }

  /** A diet text and an exercise text. */
  datatype Advice = Advice(food: string, exercise: string)

  /* The bullet that opens each line below is written as the three
     characters U+201A U+00C4 U+00A2, which is what tracker.py holds there
     (a bullet sign stored under the wrong encoding) and so what it prints. */
  const GainFood: string :=
    "\nFOOD TO GAIN WEIGHT:\n\U{201A}\U{00C4}\U{00A2} Milk, curd, paneer\n\U{201A}\U{00C4}\U{00A2} Rice, chapati, potatoes\n\U{201A}\U{00C4}\U{00A2} Bananas, dates\n\U{201A}\U{00C4}\U{00A2} Eggs, peanut butter\n"
  const GainExercise: string :=
    "\nEXERCISE:\n\U{201A}\U{00C4}\U{00A2} Strength training\n\U{201A}\U{00C4}\U{00A2} Resistance workouts\n\U{201A}\U{00C4}\U{00A2} Avoid excess cardio\n"
  const MaintainFood: string :=
    "\nFOOD TO MAINTAIN WEIGHT:\n\U{201A}\U{00C4}\U{00A2} Balanced meals\n\U{201A}\U{00C4}\U{00A2} Fruits & vegetables\n\U{201A}\U{00C4}\U{00A2} Adequate protein\n"
  const MaintainExercise: string :=
    "\nEXERCISE:\n\U{201A}\U{00C4}\U{00A2} Walking / jogging\n\U{201A}\U{00C4}\U{00A2} Yoga or stretching\n"
  const LoseFood: string :=
    "\nFOOD TO LOSE WEIGHT:\n\U{201A}\U{00C4}\U{00A2} Vegetables, fruits\n\U{201A}\U{00C4}\U{00A2} Oats, brown rice\n\U{201A}\U{00C4}\U{00A2} Lean protein (dal, eggs)\n\U{201A}\U{00C4}\U{00A2} Avoid sugar & junk food\n"
  const LoseExercise: string :=
    "\nEXERCISE:\n\U{201A}\U{00C4}\U{00A2} Brisk walking\n\U{201A}\U{00C4}\U{00A2} Cardio (cycling, skipping)\n\U{201A}\U{00C4}\U{00A2} HIIT workouts\n"

  /** The line added to the exercise text past age 40. */
  const YogaLine: string := "\nFocus on yoga & flexibility"
  /** The line added to the diet text below age 18. */
  const CalciumLine: string := "\nInclude calcium-rich foods"

  /** The fixed texts of each band, before any age overlay. */
  function BaseAdvice(c: Category): (a: Advice)
    ensures |a.food| > 0 && |a.exercise| > 0
  {
    match c
    case Underweight => Advice(GainFood, GainExercise)
    case Normal => Advice(MaintainFood, MaintainExercise)
    case Overweight => Advice(LoseFood, LoseExercise)
  }

  /** The suggestions for a BMI value and an age. The thresholds are tested
      again here, not taken from a category; the age overlay adds at most one
      line, to the exercise text past 40 or else to the diet text below 18. */
  function Suggestions(bmi: real, age: int): (r: Advice)
    ensures age > 40 ==>
      r == Advice(BaseAdvice(Classify(bmi)).food, BaseAdvice(Classify(bmi)).exercise + YogaLine)
    ensures age < 18 ==>
      r == Advice(BaseAdvice(Classify(bmi)).food + CalciumLine, BaseAdvice(Classify(bmi)).exercise)
    ensures 18 <= age <= 40 ==> r == BaseAdvice(Classify(bmi))
  {
    var base :=
      if bmi < 18.5 then Advice(GainFood, GainExercise)
      else if bmi < 25.0 then Advice(MaintainFood, MaintainExercise)
      else Advice(LoseFood, LoseExercise);
    if age > 40 then Advice(base.food, base.exercise + YogaLine)
    else if age < 18 then Advice(base.food + CalciumLine, base.exercise)
    else base
  }

  predicate EndsWith(s: string, suffix: string) {
    |suffix| <= |s| && s[|s| - |suffix|..] == suffix
  }

  /** Every base text ends with a line break. */
  lemma BaseTextsEndInNewline(c: Category)
    ensures |BaseAdvice(c).food| > 0 && BaseAdvice(c).food[|BaseAdvice(c).food| - 1] == '\n'
    ensures |BaseAdvice(c).exercise| > 0 && BaseAdvice(c).exercise[|BaseAdvice(c).exercise| - 1] == '\n'
  {
  }

  /** A string ends with a non-empty suffix only if it ends with the
      suffix's last character. */
  lemma EndsWithLastChar(s: string, suffix: string)
    requires EndsWith(s, suffix) && |suffix| > 0
    ensures s[|s| - 1] == suffix[|suffix| - 1]
  {
    assert s[|s| - |suffix|..][|suffix| - 1] == s[|s| - 1];
  }

  /** The yoga line is present exactly when age is over 40, the calcium line
      exactly when age is under 18, and never both. */
  lemma OverlayMarkers(bmi: real, age: int)
    ensures EndsWith(Suggestions(bmi, age).exercise, YogaLine) <==> age > 40
    ensures EndsWith(Suggestions(bmi, age).food, CalciumLine) <==> age < 18
    ensures !(EndsWith(Suggestions(bmi, age).food, CalciumLine)
              && EndsWith(Suggestions(bmi, age).exercise, YogaLine))
  {
    BaseTextsEndInNewline(Classify(bmi));
    OverlayOn(BaseAdvice(Classify(bmi)), age, Suggestions(bmi, age));
  }

  /** The overlay step on any pair of base texts that end in a line break. */
  lemma {:induction false} OverlayOn(base: Advice, age: int, r: Advice)
    requires |base.food| > 0 && base.food[|base.food| - 1] == '\n'
    requires |base.exercise| > 0 && base.exercise[|base.exercise| - 1] == '\n'
    requires age > 40 ==> r == Advice(base.food, base.exercise + YogaLine)
    requires age < 18 ==> r == Advice(base.food + CalciumLine, base.exercise)
    requires 18 <= age <= 40 ==> r == base
    ensures EndsWith(r.exercise, YogaLine) <==> age > 40
    ensures EndsWith(r.food, CalciumLine) <==> age < 18
  {
    if age > 40 {
      assert r.exercise[|r.exercise| - |YogaLine|..] == YogaLine;
      if EndsWith(r.food, CalciumLine) {
        EndsWithLastChar(r.food, CalciumLine);
        assert false;
      }
    } else if age < 18 {
      assert r.food[|r.food| - |CalciumLine|..] == CalciumLine;
      if EndsWith(r.exercise, YogaLine) {
        EndsWithLastChar(r.exercise, YogaLine);
        assert false;
      }
    } else {
      if EndsWith(r.exercise, YogaLine) {
        EndsWithLastChar(r.exercise, YogaLine);
        assert false;
      }
      if EndsWith(r.food, CalciumLine) {
        EndsWithLastChar(r.food, CalciumLine);
        assert false;
      }
    }
  }

  /** For a height that does not fail, the suggestions follow the band the
      classification reports for the same BMI value. */
  lemma SuggestionsFollowStatus(weight: real, heightCm: real, age: int)
    requires heightCm != 0.0
    ensures var s := BmiStatus(weight, heightCm).value;
      Suggestions(s.bmi, age).food[..|BaseAdvice(s.status).food|] == BaseAdvice(s.status).food
      && Suggestions(s.bmi, age).exercise[..|BaseAdvice(s.status).exercise|] == BaseAdvice(s.status).exercise
  {
  }
}
