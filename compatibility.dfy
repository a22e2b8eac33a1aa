/** The cosmetic compatibility badge (calculateCompatibility in the session
    context): a priority-ordered table over the two users' courses, with a
    random fallback. It has no bearing on whether a match happens. */
module Compatibility {
  import opened Types
  import Catalog

  datatype Compat = Compat(score: int, title: string)

  const Agrarian: seq<string> := ["Agronomia", "Medicina Veterinária"]
  const Health: seq<string> := ["Biomedicina", "Enfermagem", "Farmácia", "Fisioterapia", "Medicina Veterinária"]
  const Tech: seq<string> := ["Bacharelado em Sistema de Informação"]

  const MysteryLabel: string := "Match Misterioso"
  const FallbackLabel: string := "Opostos se Atraem"

  predicate LawAndPsychology(c1: string, c2: string)
  {
    (c1 == "Direito" && c2 == "Psicologia") || (c2 == "Direito" && c1 == "Psicologia")
  }

  /** The pairs some fixed rule of the table recognises, stated without regard to order. */
  predicate Related(c1: string, c2: string)
  {
    c1 == c2
    || (c1 in Agrarian && c2 in Agrarian)
    || (c1 in Health && c2 in Health)
    || LawAndPsychology(c1, c2)
  }

  /** floor(random * (75 - 50 + 1) + 50) for a draw in [0, 1). */
  function FallbackScore(roll: real): (s: int)
    requires 0.0 <= roll < 1.0
    ensures 50 <= s <= 75
  {
    (roll * 26.0 + 50.0).Floor
  }

  /** The rule table for two present courses, first applicable rule wins. */
  function CourseScore(c1: string, c2: string, roll: real): Compat
    requires 0.0 <= roll < 1.0
  {
    if c1 == c2 then Compat(85, "Casal " + c1)
    else if c1 in Agrarian && c2 in Agrarian then Compat(95, "Casal Agro 🚜")
    else if c1 in Health && c2 in Health then Compat(80, "Plantão Juntos 🏥")
    else if LawAndPsychology(c1, c2) then Compat(92, "Debate & Terapia 🧠⚖️")
    else if c1 in Tech && c2 in Tech then Compat(88, "Debugando o Amor 💻")
    else Compat(FallbackScore(roll), FallbackLabel)
  }

  /** The score of `target` as seen by `current`; a missing or empty course on either side
      (or no one logged in) gives the fixed mystery score. */
  function Score(current: Option<User>, target: User, roll: real): (r: Compat)
    requires 0.0 <= roll < 1.0
    ensures 50 <= r.score <= 95
    ensures r.score != 88
    ensures current.None? || !Present(target.course) || !Present(current.value.course) ==>
              r == Compat(65, MysteryLabel)
  {
    if current.None? || !Present(target.course) || !Present(current.value.course) then
      Compat(65, MysteryLabel)
    else
      var c1, c2 := current.value.course.value, target.course.value;
      TechRuleUnreachable(c1, c2);
      CourseScore(c1, c2, roll)
  }

  /** The technology rule can never fire: its set has one course, so a pair inside it
      is a same-course pair, which the first rule already took. */
  lemma TechRuleUnreachable(c1: string, c2: string)
    ensures c1 in Tech && c2 in Tech ==> c1 == c2
  {
  }

  /** A score of 80 or more means exactly that both courses are present and a fixed rule
      relates them; every other pair scores at most 75. */
  lemma HighScoreIffRelated(current: User, target: User, roll: real)
    requires 0.0 <= roll < 1.0
    ensures Score(Some(current), target, roll).score >= 80 <==>
              Present(current.course) && Present(target.course) &&
              Related(current.course.value, target.course.value)
  {
  }

  /** The table does not depend on which side is looking. */
  lemma ScoreSymmetric(a: User, b: User, roll: real)
    requires 0.0 <= roll < 1.0
    ensures Score(Some(a), b, roll) == Score(Some(b), a, roll)
  {
  }

  /** Rule order matters where the sets overlap: veterinary medicine is both agrarian and
      health, and the agrarian rule comes first. */
  lemma AgrarianBeforeHealth(roll: real)
    requires 0.0 <= roll < 1.0
    ensures CourseScore("Medicina Veterinária", "Agronomia", roll).score == 95
    ensures CourseScore("Medicina Veterinária", "Biomedicina", roll).score == 80
  {
  }

  /** The same course always scores 85 with the course in the label. */
  lemma SameCourse(c: string, roll: real)
    requires 0.0 <= roll < 1.0
    ensures CourseScore(c, c, roll) == Compat(85, "Casal " + c)
  {
  }

  /** The default profile's course (Administração) is in no rule, so every mock
      candidate is scored through the random fallback. */
  lemma InitialUserAlwaysFallsBack(i: nat, roll: real)
    requires i < |Catalog.MockUsers| && 0.0 <= roll < 1.0
    ensures Score(Some(Catalog.InitialUser), Catalog.MockUsers[i], roll) ==
              Compat(FallbackScore(roll), FallbackLabel)
  {
  }
}
