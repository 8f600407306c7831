/**
 * The candidate choice of `auto_init`: among the candidates of the scan,
 * highest score first, take the first whose sample names include `Object`,
 * and fall back to the best-scoring one.
 */
module Dumper {
  import opened Wrappers
  import opened Strings
  import opened Scanner
  import opened ClassDbScan

  /** `details.get('sample_names', [])`: only a walked header has sample names. */
  function SampleNames(d: Details): seq<Text>
  {
    if d.Walked? then d.sampleNames else []
  }

  predicate NamesObject(c: Candidate)
  {
    Chars("Object") in SampleNames(c.details)
  }

  /**
   * The selection loop. An empty candidate list makes `auto_init` give up
   * before selecting, which is `None` here.
   */
  method SelectCandidate(candidates: seq<Candidate>) returns (selected: Option<Candidate>)
    ensures candidates == [] <==> selected.None?
    ensures selected.Some? ==> selected.value in candidates
    ensures forall i :: 0 <= i < |candidates| && NamesObject(candidates[i]) ==>
              exists j :: 0 <= j <= i && selected == Some(candidates[j]) && NamesObject(candidates[j]) &&
                forall m :: 0 <= m < j ==> !NamesObject(candidates[m])
    ensures candidates != [] && (forall i :: 0 <= i < |candidates| ==> !NamesObject(candidates[i])) ==>
              selected == Some(candidates[0])
  {
    if |candidates| == 0 {
      return None;
    }
    selected := None;
    var i := 0;
    while i < |candidates|
      invariant 0 <= i <= |candidates|
      invariant forall m :: 0 <= m < i ==> !NamesObject(candidates[m])
      invariant selected == None
    {
      var names := SampleNames(candidates[i].details);
      if Chars("Object") in names {
        selected := Some(candidates[i]);
        return;
      }
      i := i + 1;
    }
    selected := Some(candidates[0]);
  }
}
