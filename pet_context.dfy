/**
 * The pet: a name, a number of treats earned by adding expenses, a
 * happiness level that playing fetch raises and time lowers, and a count of
 * games played.
 *
 * Times are whole milliseconds since the epoch; `lastPlayed` holds the time
 * its ISO text denotes. The current time is a parameter, and the stored pet
 * is given as an option: None stands for a missing or unreadable entry.
 */
module PetContext {
  import opened Types
  import opened Text

  datatype PetState = PetState(name: string, treats: int, happiness: int, totalPlays: int, lastPlayed: int)

  const DefaultName := "Shiba"

  /** `DEFAULT_PET`; its `lastPlayed` is the time the module was loaded. */
  function DefaultPet(loadedAt: int): PetState
  {
    PetState(DefaultName, 3, 70, 0, loadedAt)
  }

  /** Treats are never negative and happiness stays within 0 to 100. */
  predicate Valid(p: PetState)
  {
    p.treats >= 0 && 0 <= p.happiness <= 100 && p.totalPlays >= 0
  }

  lemma DefaultPetValid(loadedAt: int)
    ensures Valid(DefaultPet(loadedAt))
    ensures DefaultPet(loadedAt).name == "Shiba" && DefaultPet(loadedAt).treats == 3
    ensures DefaultPet(loadedAt).happiness == 70 && DefaultPet(loadedAt).totalPlays == 0
  {
  }

  // ----- decay -----

  const MsPerHour := 3600000

  /** `Math.floor(hoursPassed * 5)`: five points for every full fifth of an hour. */
  function Decay(elapsedMs: int): (d: int)
    ensures d * MsPerHour <= elapsedMs * 5 < (d + 1) * MsPerHour
  {
    (elapsedMs * 5) / MsPerHour
  }

  /** No time, no decay; decay grows with time, one point every 12 minutes. */
  lemma DecaySpec(a: int, b: int)
    ensures Decay(0) == 0 && Decay(MsPerHour) == 5
    ensures 0 <= a ==> 0 <= Decay(a)
    ensures a <= b ==> Decay(a) <= Decay(b)
  {
    if a <= b {
      assert Decay(a) * MsPerHour <= a * 5 <= b * 5 < (Decay(b) + 1) * MsPerHour;
    }
  }

  /** The pet as restored on load: happiness lowered by the decay since the last game, never below 0. */
  function Restored(saved: PetState, now: int): PetState
  {
    var decay := Decay(now - saved.lastPlayed);
    saved.(happiness := if saved.happiness - decay > 0 then saved.happiness - decay else 0)
  }

  /**
   * Restored happiness is never negative and, when the last game is not in
   * the future, never above the saved value; everything else is as saved.
   */
  lemma RestoredSpec(saved: PetState, now: int)
    ensures Restored(saved, now).happiness >= 0
    ensures saved.lastPlayed <= now ==> Restored(saved, now).happiness <= saved.happiness || Restored(saved, now).happiness == 0
    ensures saved.lastPlayed <= now && Valid(saved) ==> Valid(Restored(saved, now))
    ensures Restored(saved, now).(happiness := saved.happiness) == saved
  {
    DecaySpec(0, now - saved.lastPlayed);
  }

  // ----- the actions -----

  /** The pet after a game of fetch. */
  function Played(p: PetState, now: int): PetState
  {
    p.(treats := p.treats - 1, happiness := if p.happiness + 15 < 100 then p.happiness + 15 else 100,
       totalPlays := p.totalPlays + 1, lastPlayed := now)
  }

  /** A game uses one treat, adds 15 happiness up to 100, and counts; a valid pet with a treat stays valid. */
  lemma PlayedSpec(p: PetState, now: int)
    ensures Played(p, now).treats == p.treats - 1 && Played(p, now).totalPlays == p.totalPlays + 1
    ensures Played(p, now).happiness <= 100
    ensures p.happiness <= 85 ==> Played(p, now).happiness == p.happiness + 15
    ensures Valid(p) && p.treats >= 1 ==> Valid(Played(p, now)) && Played(p, now).happiness >= p.happiness
  {
  }

  /** `name.trim() || "Shiba"`: never empty, and neither starting nor ending with whitespace. */
  function PetName(input: string): (name: string)
    ensures name != [] && !IsWhitespace(name[0]) && !IsWhitespace(name[|name| - 1])
  {
    if Trim(input) == [] then DefaultName else Trim(input)
  }

  /** The stored name is already trimmed; a name with text in it is kept, trimmed, and a blank one becomes "Shiba". */
  lemma PetNameSpec(input: string)
    ensures Trim(PetName(input)) == PetName(input)
    ensures Trim(input) != [] ==> PetName(input) == Trim(input)
    ensures Trim(input) == [] ==> PetName(input) == "Shiba"
  {
    TrimOfTrimmed(PetName(input));
  }

  class PetStore {
    var pet: PetState
    var isLoaded: bool
    var isExcited: bool

    constructor(loadedAt: int)
      ensures pet == DefaultPet(loadedAt) && !isLoaded && !isExcited
    {
      pet, isLoaded, isExcited := DefaultPet(loadedAt), false, false;
    }

    /** The load effect: the stored pet, or the default, with decay applied. */
    method Load(saved: Option<PetState>, loadedAt: int, now: int)
      modifies this
      ensures pet == Restored(if saved.Some? then saved.value else DefaultPet(loadedAt), now)
      ensures isLoaded && isExcited == old(isExcited)
    {
      var savedPet := if saved.Some? then saved.value else DefaultPet(loadedAt);
      var decay := Decay(now - savedPet.lastPlayed);
      var newHappiness := if savedPet.happiness - decay > 0 then savedPet.happiness - decay else 0;
      pet := savedPet.(happiness := newHappiness);
      isLoaded := true;
    }

    /** One more treat, and the pet gets excited. */
    method AddTreat()
      modifies this
      ensures pet == old(pet).(treats := old(pet).treats + 1)
      ensures isExcited && isLoaded == old(isLoaded)
    {
      pet := pet.(treats := pet.treats + 1);
      isExcited := true;
    }

    /** The excitement timeout firing. */
    method CalmDown()
      modifies this
      ensures !isExcited && pet == old(pet) && isLoaded == old(isLoaded)
    {
      isExcited := false;
    }

    /** `playFetch`: refused without a treat; otherwise the pet plays. */
    method PlayFetch(now: int) returns (played: bool)
      modifies this
      ensures played <==> old(pet).treats >= 1
      ensures pet == if played then Played(old(pet), now) else old(pet)
      ensures isExcited == old(isExcited) && isLoaded == old(isLoaded)
    {
      if pet.treats < 1 {
        return false;
      }
      var h := if pet.happiness + 15 < 100 then pet.happiness + 15 else 100;
      pet := pet.(treats := pet.treats - 1, happiness := h, totalPlays := pet.totalPlays + 1, lastPlayed := now);
      played := true;
    }

    method SetName(input: string)
      modifies this
      ensures pet == old(pet).(name := PetName(input))
      ensures isExcited == old(isExcited) && isLoaded == old(isLoaded)
    {
      pet := pet.(name := PetName(input));
    }
  }

  /** Adding a treat, playing and renaming all keep a valid pet valid. */
  lemma ActionsKeepValid(p: PetState, now: int, input: string)
    requires Valid(p)
    ensures Valid(p.(treats := p.treats + 1))
    ensures p.treats >= 1 ==> Valid(Played(p, now))
    ensures Valid(p.(name := PetName(input)))
  {
    PlayedSpec(p, now);
  }
}
