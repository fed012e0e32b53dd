/**
 * The pet's play panel: throwing the ball (which spends a treat through the
 * pet store) and the three-step fetch animation that follows, the happiness
 * bar's colour, the throw button, and renaming the pet.
 *
 * The animation's three timeouts (600, 1200 and 2000 ms after the throw)
 * are modelled as a queue of pending timer events that fire in that order.
 */
module PetPlayPanel {
  import opened Types
  import opened Text
  import PetContext

  // ----- the happiness bar and the button -----

  datatype BarColor = Emerald | Amber | Red

  /** `happinessColor`. */
  function HappinessColor(happiness: int): BarColor
  {
    if happiness > 70 then Emerald else if happiness > 40 then Amber else Red
  }

  /** Green above 70, amber above 40 up to 70, red at 40 and below; more happiness never gives a worse colour. */
  lemma HappinessColorSpec(h: int, more: int)
    ensures HappinessColor(h) == Emerald <==> h > 70
    ensures HappinessColor(h) == Amber <==> 40 < h <= 70
    ensures HappinessColor(h) == Red <==> h <= 40
    ensures h <= more && HappinessColor(h) != Red ==> HappinessColor(more) != Red
    ensures h <= more && HappinessColor(h) == Emerald ==> HappinessColor(more) == Emerald
  {
  }

  datatype ButtonLabel = PlayingLabel | NoTreatsLabel | ThrowLabel

  /** The button's text: playing takes precedence over running out of treats. */
  function LabelOf(isPlaying: bool, treats: int): (l: ButtonLabel)
    ensures l == ThrowLabel <==> !isPlaying && treats >= 1
    ensures l == PlayingLabel <==> isPlaying
  {
    if isPlaying then PlayingLabel else if treats < 1 then NoTreatsLabel else ThrowLabel
  }

  // ----- the animation -----

  /** The pending timeouts: the ball flies off, the dog runs back, the game ends. */
  datatype Timer = BallGone | DogBack | GameOver

  const MaxNameLength := 20

  class Panel {
    const pets: PetContext.PetStore
    var isPlaying: bool
    var showBall: bool
    var showDogRun: bool
    var showReturn: bool
    var pending: seq<Timer>
    var editingName: bool
    var nameInput: string

    /**
     * The animation is in one of four stages, and its flags match the
     * timeouts still to fire: idle with nothing pending, then ball, run
     * and return, each showing exactly one picture while playing.
     */
    predicate Consistent()
      reads this
    {
      || (pending == [] && !isPlaying && !showBall && !showDogRun && !showReturn)
      || (pending == [BallGone, DogBack, GameOver] && isPlaying && showBall && !showDogRun && !showReturn)
      || (pending == [DogBack, GameOver] && isPlaying && !showBall && showDogRun && !showReturn)
      || (pending == [GameOver] && isPlaying && !showBall && !showDogRun && showReturn)
    }

    /** Playing exactly while a timeout is pending, with at most one picture shown. */
    lemma ConsistentMeaning()
      requires Consistent()
      ensures isPlaying <==> pending != []
      ensures (showBall ==> !showDogRun && !showReturn) && (showDogRun ==> !showReturn)
    {
    }

    /** Idle, not editing, the input holding the pet's name. */
    constructor(pets: PetContext.PetStore)
      ensures this.pets == pets && Consistent() && !isPlaying && pending == []
      ensures !editingName && nameInput == pets.pet.name
    {
      this.pets := pets;
      isPlaying, showBall, showDogRun, showReturn := false, false, false, false;
      pending := [];
      editingName, nameInput := false, pets.pet.name;
    }

    /** `disabled={isPlaying || pet.treats < 1}`. */
    predicate ButtonDisabled()
      reads this, pets
    {
      isPlaying || pets.pet.treats < 1
    }

    /**
     * `handleThrowBall`: ignored while playing or without a treat;
     * otherwise the pet plays fetch, the ball is shown and the three
     * timeouts are scheduled. A throw does something exactly when the
     * button is enabled.
     */
    method HandleThrowBall(now: int) returns (thrown: bool)
      requires Consistent()
      modifies this, pets
      ensures Consistent()
      ensures thrown <==> !old(ButtonDisabled())
      ensures thrown ==> pets.pet == PetContext.Played(old(pets.pet), now)
      ensures thrown ==> isPlaying && showBall && pending == [BallGone, DogBack, GameOver]
      ensures !thrown ==> pets.pet == old(pets.pet) && isPlaying == old(isPlaying) && pending == old(pending)
                          && showBall == old(showBall) && showDogRun == old(showDogRun) && showReturn == old(showReturn)
      ensures pets.isExcited == old(pets.isExcited) && pets.isLoaded == old(pets.isLoaded)
      ensures editingName == old(editingName) && nameInput == old(nameInput)
    {
      if isPlaying || pets.pet.treats < 1 {
        return false;
      }
      var success := pets.PlayFetch(now);
      if success {
        isPlaying := true;
        showBall := true;
        pending := [BallGone, DogBack, GameOver];
      }
      thrown := success;
    }

    /**
     * The next pending timeout fires: the ball gives way to the running
     * dog, the dog to the return, and the return to the idle state.
     */
    method TimerFires()
      requires Consistent()
      modifies this
      ensures Consistent()
      ensures pending == if old(pending) == [] then [] else old(pending)[1..]
      ensures old(pending) != [] && old(pending)[0] == BallGone ==> showDogRun && isPlaying
      ensures old(pending) != [] && old(pending)[0] == DogBack ==> showReturn && isPlaying
      ensures old(pending) != [] && old(pending)[0] == GameOver ==> !isPlaying && !showReturn
      ensures editingName == old(editingName) && nameInput == old(nameInput)
    {
      if pending == [] {
        return;
      }
      match pending[0] {
        case BallGone =>
          showBall := false;
          showDogRun := true;
        case DogBack =>
          showDogRun := false;
          showReturn := true;
        case GameOver =>
          showReturn := false;
          isPlaying := false;
      }
      pending := pending[1..];
    }

    /** Clicking the name opens the editor. */
    method StartEditing()
      modifies this
      ensures editingName && nameInput == old(nameInput)
      ensures isPlaying == old(isPlaying) && pending == old(pending)
      ensures showBall == old(showBall) && showDogRun == old(showDogRun) && showReturn == old(showReturn)
    {
      editingName := true;
    }

    /** Typing in the name field; the field takes at most 20 characters. */
    method TypeName(text: string)
      modifies this
      ensures nameInput == if |text| <= MaxNameLength then text else text[..MaxNameLength]
      ensures |nameInput| <= MaxNameLength
      ensures editingName == old(editingName) && isPlaying == old(isPlaying) && pending == old(pending)
      ensures showBall == old(showBall) && showDogRun == old(showDogRun) && showReturn == old(showReturn)
    {
      nameInput := if |text| <= MaxNameLength then text else text[..MaxNameLength];
    }

    /**
     * `handleSaveName`: the pet is renamed to the input, the editor closes,
     * and when the stored name changed the input follows it.
     */
    method HandleSaveName()
      modifies this, pets
      ensures pets.pet == old(pets.pet).(name := PetContext.PetName(old(nameInput)))
      ensures !editingName
      ensures nameInput == if pets.pet.name != old(pets.pet.name) then pets.pet.name else old(nameInput)
      ensures pets.isExcited == old(pets.isExcited) && pets.isLoaded == old(pets.isLoaded)
      ensures isPlaying == old(isPlaying) && pending == old(pending)
      ensures showBall == old(showBall) && showDogRun == old(showDogRun) && showReturn == old(showReturn)
    {
      var before := pets.pet.name;
      pets.SetName(nameInput);
      var after := pets.pet.name;
      editingName := false;
      if after != before {
        nameInput := after;
      }
    }
  }
}
