// The player's actor values, as far as the plugin reads and changes them.
//
// The game is assumed to be a faithful bookkeeper: a permanent restore adds the same amount
// to the permanent modifier, the permanent value and the current value, and ModActorValue
// moves the temporary modifier and the current value.
module Actors {
  import opened ActorValues

  datatype Views = Views(base: real, current: real, permanent: real, permanentModifier: real, temporary: real) {
    function Restored(delta: real): Views {
      Views(base, current + delta, permanent + delta, permanentModifier + delta, temporary)
    }

    function Modded(delta: real): Views {
      Views(base, current + delta, permanent, permanentModifier, temporary + delta)
    }
  }

  const NO_VIEWS := Views(0.0, 0.0, 0.0, 0.0, 0.0)

  type Sheet = map<ActorValue, Views>

  function ViewOf(sheet: Sheet, av: ActorValue): Views {
    if av in sheet then sheet[av] else NO_VIEWS
  }

  class Actor {
    var sheet: Sheet

    constructor (sheet: Sheet)
      ensures this.sheet == sheet
    {
      this.sheet := sheet;
    }

    method RestoreActorValue(av: ActorValue, delta: real)
      modifies this
      ensures sheet == old(sheet)[av := ViewOf(old(sheet), av).Restored(delta)]
    {
      sheet := sheet[av := ViewOf(sheet, av).Restored(delta)];
    }

    method ModActorValue(av: ActorValue, delta: real)
      modifies this
      ensures sheet == old(sheet)[av := ViewOf(old(sheet), av).Modded(delta)]
    {
      sheet := sheet[av := ViewOf(sheet, av).Modded(delta)];
    }
  }
}
