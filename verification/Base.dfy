/** Small shared vocabulary: optional values, results and duplicate-free sequences. */
module Base {

  datatype Option<+T> = None | Some(value: T)

  datatype Result<+T, +E> = Ok(value: T) | Err(error: E)

  /** An identifier; nothing depends on how it is made up. */
  datatype Uuid = Uuid(bits: nat)

  /** No value occurs twice. */
  ghost predicate NoDup<T>(s: seq<T>) {
    forall i, j :: 0 <= i < j < |s| ==> s[i] != s[j]
  }

  lemma NoDupAppend<T>(s: seq<T>, x: T)
    ensures NoDup(s + [x]) <==> NoDup(s) && x !in s
  {
    if NoDup(s + [x]) {
      forall i, j | 0 <= i < j < |s| ensures s[i] != s[j] {
        assert (s + [x])[i] != (s + [x])[j];
      }
      forall i | 0 <= i < |s| ensures s[i] != x {
        assert (s + [x])[i] != (s + [x])[|s|];
      }
    }
  }

  /** `part` is what stands in `whole` at these places, in order. */
  ghost predicate Picked<T>(whole: seq<T>, part: seq<T>, at: seq<nat>) {
    && |at| == |part|
    && (forall j, k :: 0 <= j < k < |at| ==> at[j] < at[k])
    && (forall j :: 0 <= j < |at| ==> at[j] < |whole| && part[j] == whole[at[j]])
  }

  lemma PickedNext<T>(whole: seq<T>, part: seq<T>, at: seq<nat>, x: T)
    requires Picked(whole, part, at)
    ensures Picked(whole + [x], part, at) && Picked(whole + [x], part + [x], at + [|whole|])
  {
  }
}
