/**
  The grade of an attempt (app/index.tsx): `nota`, the pass verdict
  `aprovado`, and the one-decimal grade that the result screen shows and
  that is stored as the quiz's last score.
*/
module Grading {
  import opened Wrappers
  import Catalog

  /** `nota`: the share of correct answers scaled to 0..10, or 0 with no questions. */
  function Grade(acertos: nat, total: nat): (nota: real)
    ensures total == 0 ==> nota == 0.0
    ensures total > 0 ==> nota * total as real == 10.0 * acertos as real
    ensures 0.0 <= nota && (acertos <= total ==> nota <= 10.0)
  {
    if total > 0 then (acertos as real / total as real) * 10.0 else 0.0
  }

  /** `aprovado = nota >= 6`, which is the integer test `10 * acertos >= 6 * total`. */
  function Passed(acertos: nat, total: nat): (b: bool)
    ensures b <==> total > 0 && 10 * acertos >= 6 * total
  {
    var nota := Grade(acertos, total);
    if total > 0 then
      var t := total as real;
      assert (10 * acertos) as real == nota * t;
      assert (6 * total) as real == 6.0 * t;
      assert nota >= 6.0 ==> nota * t - 6.0 * t == (nota - 6.0) * t >= 0.0;
      assert nota < 6.0 ==> 6.0 * t - nota * t == (6.0 - nota) * t > 0.0;
      nota >= 6.0
    else
      nota >= 6.0
  }

  /**
    `Number(nota.toFixed(1))` counted in tenths: the grade rounded to the
    nearest tenth, halves upwards.
  */
  function ShownTenths(acertos: nat, total: nat): (tenths: nat)
    ensures total == 0 ==> tenths == 0
    ensures total > 0 ==> 2 * total * tenths <= 200 * acertos + total < 2 * total * tenths + 2 * total
  {
    if total == 0 then 0 else (200 * acertos + total) / (2 * total)
  }

  /** The shown grade as the stored number. */
  function ShownGrade(acertos: nat, total: nat): real {
    ShownTenths(acertos, total) as real / 10.0
  }

  /**
    As written, the verdict and the shown grade disagree: 25 right answers
    out of 42 give a grade of 5.95..., so the attempt fails, yet the result
    screen shows 6.0 and the catalog card, which reads the stored 6.0,
    shows the passed tone.
  */
  lemma VerdictDisagreesWithShownGrade()
    ensures !Passed(25, 42)
    ensures ShownTenths(25, 42) == 60
    ensures Catalog.CardPassed(Some(ShownGrade(25, 42))) == Some(true)
  {
    assert 2 * 42 * 60 <= 200 * 25 + 42 < 2 * 42 * 60 + 2 * 42;
  }

  lemma MulMono(x: nat, y: nat, z: nat)
    requires y <= z
    ensures x * y <= x * z
  {
    assert x * z == x * y + x * (z - y);
  }

  /** The shown grade reaches 6.0 exactly when `200 * acertos >= 119 * total`. */
  lemma ShownPassThreshold(acertos: nat, total: nat)
    requires total > 0
    ensures ShownTenths(acertos, total) >= 60 <==> 200 * acertos >= 119 * total
  {
    var t := ShownTenths(acertos, total);
    if t >= 60 {
      MulMono(2 * total, 60, t);
    } else {
      MulMono(2 * total, t, 59);
    }
  }

  /** The verdict decided on the grade that is shown and stored. */
  function PassedAsShown(acertos: nat, total: nat): (b: bool)
    ensures b <==> total > 0 && 200 * acertos >= 119 * total
  {
    if total == 0 then false
    else
      ShownPassThreshold(acertos, total);
      ShownTenths(acertos, total) >= 60
  }

  /** Decided on the shown grade, the verdict always agrees with the catalog card's tone. */
  lemma PassedAsShownAgreesWithCard(acertos: nat, total: nat)
    ensures Catalog.CardPassed(Some(ShownGrade(acertos, total))) == Some(PassedAsShown(acertos, total))
  {
    var t := ShownTenths(acertos, total);
    assert t as real / 10.0 >= 6.0 <==> t >= 60;
  }
}
