/** Players (src/Santorini/Boarding/Player.cs): a non-empty name and the
    two workers created with it, numbered 1 and 2. */
module Players {
  import opened Wrappers
  import opened Pieces

  datatype Player = Player(name: string, workers: seq<WorkerId>)

  /** string.IsNullOrEmpty. */
  predicate IsNullOrEmpty(s: Option<string>)
  {
    s.None? || s.value == ""
  }

  /** The Player constructor: a null or empty name throws; otherwise the name
      is kept as given and workers 1 and 2 of this player are created. */
  function NewPlayer(name: Option<string>): (r: Outcome<Player>)
    ensures r.Threw? <==> name.None? || name.value == ""
    ensures r.Threw? ==> r.error == ArgumentNull
    ensures r.Returned? ==>
      && r.value.name == name.value
      && |r.value.workers| == 2
      && r.value.workers[0].number == 1 && r.value.workers[1].number == 2
      && (forall w :: w in r.value.workers ==> w.player == name.value)
      && r.value.workers[0] != r.value.workers[1]
  {
    if IsNullOrEmpty(name) then Threw(ArgumentNull)
    else
      var one := NewWorker(name, 1).value;
      var two := NewWorker(name, 2).value;
      Returned(Player(name.value, [one.id, two.id]))
  }

  /** `player.Workers.SingleOrDefault(b => b.Number == number)`. */
  function WorkerNumbered(p: Player, number: int): (r: Option<WorkerId>)
    ensures r.Some? ==> r.value in p.workers && r.value.number == number
    ensures r.None? ==> forall w :: w in p.workers ==> w.number != number
  {
    FirstNumbered(p.workers, number)
  }

  function FirstNumbered(ws: seq<WorkerId>, number: int): (r: Option<WorkerId>)
    ensures r.Some? ==> r.value in ws && r.value.number == number
    ensures r.None? ==> forall w :: w in ws ==> w.number != number
  {
    if |ws| == 0 then None
    else if ws[0].number == number then Some(ws[0])
    else FirstNumbered(ws[1..], number)
  }

  /** A constructed player has exactly the workers numbered 1 and 2. */
  lemma NewPlayerWorkers(name: string, number: int)
    requires name != ""
    ensures WorkerNumbered(NewPlayer(Some(name)).value, number).Some? <==> number == 1 || number == 2
    ensures number == 1 || number == 2 ==>
      WorkerNumbered(NewPlayer(Some(name)).value, number) == Some(WorkerId(name, number))
  {
  }
}
