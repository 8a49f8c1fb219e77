/** A small world in which everything is known, for statements about what can go wrong. */
module Examples {
  import opened Text
  import opened Names
  import opened Fingerprints
  import opened Runs
  import opened Decisions

  function Digest(c: char): ShaHex
    requires IsHexChar(c)
  {
    seq(64, _ => c)
  }

  /** A digest that looks at the first character only, which tells three start times apart. */
  function FirstCharSha(s: string): ShaHex {
    if s != "" && s[0] == 'a' then Digest('a') else if s != "" && s[0] == 'b' then Digest('b') else Digest('c')
  }

  function StartText(t: Time): string {
    if t == 0 then "a" else if t == 1 then "b" else "c"
  }

  function ExamplePhase(conditions: seq<Condition>): Phase {
    if conditions == [] then Ongoing("Pending") else EmergencyStopped
  }

  function NoSum(s: string): Word64 {
    0
  }

  function ExampleWorld(): (w: World)
    ensures w.Valid()
  {
    World(ExamplePhase, NoSum, FirstCharSha, StartText, s => s, a => true)
  }

  lemma ExampleHash(t: Time, id: string)
    ensures OccurrenceHash(StartText(t), id, FirstCharSha)[0] == StartText(t)[0]
  {
    assert HashInput(StartText(t), id)[0] == StartText(t)[0];
  }
}
