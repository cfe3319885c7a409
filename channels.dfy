/**
 * The command bus between the processes. Every `queue.put(...)` of the game
 * appends one `Command` to a `Channel`, a first-in first-out queue;
 * `CommQueue` pairs two of them, `a` from the manager to the puzzleboard and
 * `b` back from the puzzleboard to the manager.
 */
module Channels {
  import opened Options

  /** The dictionary `{'category': ..., 'clue': ..., 'puzzle': ...}` a puzzle travels as. */
  datatype Puzzle = Puzzle(category: string, clue: string, text: string)

  /** The colour names the letterboard's three-element messages carry. */
  datatype Seat = Red | Yellow | Blue

  datatype Command =
    // manager -> puzzleboard, on queue `a`
    | Load(puzzle: Puzzle)              // ('load', puzzle)
    | Letter(guess: string)             // ('letter', letter)
    | Reveal                            // ('reveal', None)
    | Tossup                            // ('tossup', None)
    | PauseTossup                       // ('pause_tossup', None)
    | Exit                              // ('exit', None), also to the score displays
    // puzzleboard -> manager, on queue `b`
    | PuzzleLoaded(loaded: Puzzle)      // ('puzzle_loaded', puzzle)
    | Matches(count: nat)               // ('matches', n)
    // manager -> one player's score display
    | Flash                             // ('flash', None)
    | StopFlash                         // ('stop_flash', None)
    | Score(score: int)                 // ('score', score)
    | Total(total: int)                 // ('total', total)
    // manager -> letterboard
    | FlashFor(flashing: Seat)                      // ('flash', colour, None)
    | StopFlashFor(stopping: Seat)                  // ('stop_flash', colour, None)
    | ScoreFor(scored: Seat, seatScore: int)        // ('score', colour, score)
    | TotalFor(totalled: Seat, seatTotal: int)      // ('total', colour, total)
    | RemoveLetter(removed: string)                 // ('remove_letter', letter, None)
    | Reload                                        // ('reload', None, None)
    | ExitBoard                                     // ('exit', None, None)

  /** One `multiprocessing.Queue`: unbounded, `put` never blocks, `get(block=False)` never waits. */
  class Channel {
    var items: seq<Command>

    constructor ()
      ensures items == []
    {
      items := [];
    }

    method Put(c: Command)
      modifies this
      ensures items == old(items) + [c]
    {
      items := items + [c];
    }

    /** `get(block=False)`: the oldest command, or `None` where Python raises `Empty`. */
    method TryGet() returns (r: Option<Command>)
      modifies this
      ensures old(items) == [] ==> r == None && items == []
      ensures old(items) != [] ==> r == Some(old(items)[0]) && items == old(items)[1..]
    {
      if items == [] {
        r := None;
      } else {
        r := Some(items[0]);
        items := items[1..];
      }
    }
  }

  /** Two queues: the parent writes `a` and reads `b`, the child the opposite. */
  class CommQueue {
    const a: Channel
    const b: Channel

    constructor ()
      ensures fresh(a) && fresh(b) && a != b
      ensures a.items == [] && b.items == []
    {
      a := new Channel();
      b := new Channel();
    }
  }
}
