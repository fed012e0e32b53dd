/**
 * The floating pet: nothing until the pet is loaded; then a mood taken
 * from its happiness, which sets the tail wag, and a badge with the number
 * of treats.
 */
module PetView {
  import opened Types
  import opened Text
  import Formatters
  import PetContext
  import PetPlayPanel

  datatype Mood = Happy | Content | Sad

  /** The mood: happy above 70, content above 40, sad otherwise. */
  function MoodOf(happiness: int): Mood
  {
    if happiness > 70 then Happy else if happiness > 40 then Content else Sad
  }

  /** The mood follows the same thresholds as the happiness bar's colour in the play panel. */
  lemma MoodMatchesBar(h: int)
    ensures MoodOf(h) == Happy <==> h > 70
    ensures MoodOf(h) == Content <==> 40 < h <= 70
    ensures MoodOf(h) == Sad <==> h <= 40
    ensures MoodOf(h) == Happy <==> PetPlayPanel.HappinessColor(h) == PetPlayPanel.Emerald
    ensures MoodOf(h) == Sad <==> PetPlayPanel.HappinessColor(h) == PetPlayPanel.Red
  {
  }

  datatype Wag = FastWag | NormalWag | NoWag

  /** The tail: a fast wag when happy, a normal one when content, none when sad. */
  function TailOf(m: Mood): (w: Wag)
    ensures w == FastWag <==> m == Happy
    ensures w == NoWag <==> m == Sad
  {
    match m
    case Happy => FastWag
    case Content => NormalWag
    case Sad => NoWag
  }

  /** The badge's text: the count, capped as "99+". */
  function BadgeLabel(treats: nat): string
  {
    if treats > 99 then "99+" else NatToString(treats)
  }

  /** The badge, shown only when there is a treat. */
  function Badge(treats: int): (b: Option<string>)
    ensures b.Some? <==> treats > 0
    ensures b.Some? ==> b.value == BadgeLabel(treats)
  {
    if treats > 0 then Some(BadgeLabel(treats)) else None
  }

  /** Counts up to 99 are shown exactly and told apart; every count above 99 reads "99+"; a label has at most three characters. */
  lemma BadgeLabelSpec(m: nat, n: nat)
    ensures 0 < m <= 99 && 0 < n <= 99 && BadgeLabel(m) == BadgeLabel(n) ==> m == n
    ensures m > 99 ==> BadgeLabel(m) == "99+"
    ensures m <= 99 ==> forall i :: 0 <= i < |BadgeLabel(m)| ==> IsDigit(BadgeLabel(m)[i])
    ensures 1 <= |BadgeLabel(m)| <= 3
  {
    if 0 < m <= 99 && 0 < n <= 99 && BadgeLabel(m) == BadgeLabel(n) {
      Formatters.NatToStringInjective(m, n);
    }
    if m <= 99 {
      NatToStringDigits(m);
    }
  }

  /** Up to 99 the decimal text has one or two digits. */
  lemma NatToStringDigits(n: nat)
    requires n <= 99
    ensures 1 <= |NatToString(n)| <= 2 && forall i :: 0 <= i < |NatToString(n)| ==> IsDigit(NatToString(n)[i])
  {
    if n >= 10 {
      assert NatToString(n) == NatToString(n / 10) + [DigitChar(n % 10)];
    }
  }

  /** What is drawn. */
  datatype Figure = Figure(mood: Mood, tail: Wag, badge: Option<string>, excited: bool)

  /** `Pet`: nothing until loaded; otherwise the figure for the pet's state. */
  function Render(pet: PetContext.PetState, isLoaded: bool, isExcited: bool): (f: Option<Figure>)
    ensures f.Some? <==> isLoaded
    ensures f.Some? ==> f.value.mood == MoodOf(pet.happiness) && f.value.tail == TailOf(f.value.mood)
    ensures f.Some? ==> f.value.badge == Badge(pet.treats) && f.value.excited == isExcited
  {
    if !isLoaded then None
    else
      var mood := MoodOf(pet.happiness);
      Some(Figure(mood, TailOf(mood), Badge(pet.treats), isExcited))
  }

  /** Adding a treat always shows the badge: the count is then at least one. */
  lemma TreatShowsBadge(pet: PetContext.PetState)
    requires PetContext.Valid(pet)
    ensures Badge(pet.treats + 1).Some?
    ensures pet.treats + 1 <= 99 ==> Badge(pet.treats + 1) == Some(NatToString(pet.treats + 1))
  {
  }
}
