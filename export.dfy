/** convert_particles_data of export.py: the per-image particle lists
    joined into one list. */
module Export {

  /** The lists of ls joined, in order. */
  function Flatten<T>(ls: seq<seq<T>>): seq<T>
    decreases |ls|
  {
    if |ls| == 0 then [] else Flatten(ls[..|ls| - 1]) + ls[|ls| - 1]
  }

  /** The sum of the lengths of the lists of ls. */
  function TotalLength<T>(ls: seq<seq<T>>): nat
    decreases |ls|
  {
    if |ls| == 0 then 0 else TotalLength(ls[..|ls| - 1]) + |ls[|ls| - 1]|
  }

  /** The joined list is as long as the lists together, holds exactly their
      elements, and is empty when every list is (in particular when there
      are none). */
  lemma {:induction false} FlattenSpec<T>(ls: seq<seq<T>>)
    ensures |Flatten(ls)| == TotalLength(ls)
    ensures forall x :: x in Flatten(ls) ==> exists i :: 0 <= i < |ls| && x in ls[i]
    ensures forall x, i :: 0 <= i < |ls| && x in ls[i] ==> x in Flatten(ls)
    ensures (forall i :: 0 <= i < |ls| ==> ls[i] == []) ==> Flatten(ls) == []
    decreases |ls|
  {
    if |ls| > 0 {
      var init := ls[..|ls| - 1];
      FlattenSpec(init);
      assert Flatten(ls) == Flatten(init) + ls[|ls| - 1];
      forall x | x in Flatten(ls) ensures exists i :: 0 <= i < |ls| && x in ls[i] {
        if x in Flatten(init) {
          var i :| 0 <= i < |init| && x in init[i];
          assert ls[i] == init[i];
        } else {
          assert x in ls[|ls| - 1];
        }
      }
      forall x, i | 0 <= i < |ls| && x in ls[i] ensures x in Flatten(ls) {
        if i < |init| {
          assert x in init[i];
        }
      }
    }
  }

  /** Joining keeps the order: the lists appear one after the other, each
      in its own order. */
  lemma {:induction false} FlattenAppend<T>(ls: seq<seq<T>>, ms: seq<seq<T>>)
    ensures Flatten(ls + ms) == Flatten(ls) + Flatten(ms)
    decreases |ms|
  {
    if |ms| == 0 {
      assert ls + ms == ls;
    } else {
      var init := ms[..|ms| - 1];
      assert (ls + ms)[..|ls + ms| - 1] == ls + init;
      FlattenAppend(ls, init);
    }
  }

  /** convert_particles_data: the nested loop appending every particle of
      every list to a new list; the input lists are values and are not
      changed. */
  method ConvertParticlesData<T>(particlesList: seq<seq<T>>) returns (data: seq<T>)
    ensures data == Flatten(particlesList)
  {
    data := [];
    for i := 0 to |particlesList|
      invariant data == Flatten(particlesList[..i])
    {
      var particles := particlesList[i];
      assert particlesList[..i + 1][..i] == particlesList[..i];
      for j := 0 to |particles|
        invariant data == Flatten(particlesList[..i]) + particles[..j]
      {
        assert particles[..j + 1] == particles[..j] + [particles[j]];
        data := data + [particles[j]];
      }
      assert particles[..|particles|] == particles;
    }
    assert particlesList[..|particlesList|] == particlesList;
  }
}
