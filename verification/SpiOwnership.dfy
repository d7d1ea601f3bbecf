/** Who owns the cartridge SPI pins. While the debug wire borrows them the SPI backend is
    in SWD mode; a block flag keeps a later caller from taking them back too early. */
module SpiOwnership {
  import opened Errors

  class SpiOwner {
    var swdMode: bool
    var restoreBlocked: bool
    var locked: bool

    constructor ()
      ensures !swdMode && !restoreBlocked && !locked
    {
      swdMode, restoreBlocked, locked := false, false, false;
    }

    method EnterSwdMode(pins: Error, rollback: Error) returns (err: Error)
      requires !locked
      modifies this
      ensures locked == (err == NoError) && err == pins
      ensures err == NoError ==> swdMode && restoreBlocked == old(restoreBlocked)
      ensures err != NoError && old(swdMode) ==> swdMode && restoreBlocked == old(restoreBlocked)
      ensures err != NoError && !old(swdMode) ==>
        swdMode == (rollback != NoError) && restoreBlocked == (old(restoreBlocked) || rollback != NoError)
    {
      locked := true;
      var wasSwd := swdMode;
      swdMode := true;
      if pins == NoError {
        return NoError;
      }
      if !wasSwd {
        if rollback == NoError {
          swdMode := false;
        } else {
          restoreBlocked := true;
        }
      }
      locked := false;
      return pins;
    }

    /** Gives the pins back only when asked to, not blocked, and every step of it works. */
    method LeaveSwdMode(restore: bool, pins: Error, init: Error) returns (err: Error)
      requires locked
      modifies this
      ensures !locked
      ensures !restore || old(restoreBlocked) ==>
        err == NoError && swdMode == old(swdMode) && restoreBlocked == old(restoreBlocked)
      ensures restore && !old(restoreBlocked) ==>
        && swdMode == (err != NoError) && restoreBlocked == (err != NoError)
        && (err == NoError <==> pins == NoError && init == NoError)
    {
      err := NoError;
      if restore && !restoreBlocked {
        err := pins;
        if err == NoError {
          swdMode := false;
          err := init;
        }
        if err != NoError {
          swdMode := true;
          restoreBlocked := true;
        }
      }
      locked := false;
    }

    method BlockSwdRestore()
      modifies this`restoreBlocked
      ensures restoreBlocked
    {
      restoreBlocked := true;
    }

    method AllowSwdRestore()
      modifies this`restoreBlocked
      ensures !restoreBlocked
    {
      restoreBlocked := false;
    }
  }
}
