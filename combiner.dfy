/**
 * The annotation tree combiner: merges the `implementations` subtree found by
 * the source scan and the `tests` subtree found by the test scan into one
 * document under `requirement_annotations`.
 */
module Combiner {
  import opened Tree
  import opened KeyOrder

  const REQUIREMENT_ANNOTATIONS := "requirement_annotations"
  const IMPLEMENTATIONS := "implementations"
  const TESTS := "tests"

  /** The subtree `requirement_annotations` / `key` of a document, missing when
      either level is absent: how execute extracts each input. */
  function Subtree(doc: Node, key: string): Node {
    Path(Path(doc, REQUIREMENT_ANNOTATIONS), key)
  }

  /** The children of the combined document's `requirement_annotations` node. */
  function Inner(doc: Node): map<string, Node> {
    var ra := Path(doc, REQUIREMENT_ANNOTATIONS);
    if ra.Obj? then ra.fields else map[]
  }

  /** combineOutput: a fresh document whose only key is `requirement_annotations`;
      under it, each input appears under its own key exactly when it is not
      empty, unchanged, and nothing else appears. */
  function CombineOutput(implementations: Node, tests: Node): (r: Node)
    ensures r.Obj? && r.fields.Keys == {REQUIREMENT_ANNOTATIONS}
    ensures r.fields[REQUIREMENT_ANNOTATIONS].Obj?
    ensures Inner(r).Keys <= {IMPLEMENTATIONS, TESTS}
    ensures IMPLEMENTATIONS in Inner(r) <==> !IsEmpty(implementations)
    ensures TESTS in Inner(r) <==> !IsEmpty(tests)
    ensures Subtree(r, IMPLEMENTATIONS) == if IsEmpty(implementations) then Missing else implementations
    ensures Subtree(r, TESTS) == if IsEmpty(tests) then Missing else tests
  {
    var withImplementations := if IsEmpty(implementations) then map[] else map[IMPLEMENTATIONS := implementations];
    var requirementAnnotations := if IsEmpty(tests) then withImplementations else withImplementations[TESTS := tests];
    Obj(map[REQUIREMENT_ANNOTATIONS := Obj(requirementAnnotations)])
  }

  /** With nothing to combine, the output still has its root key, holding an
      empty object. */
  lemma CombineEmptyInputs(implementations: Node, tests: Node)
    requires IsEmpty(implementations) && IsEmpty(tests)
    ensures CombineOutput(implementations, tests) == Obj(map[REQUIREMENT_ANNOTATIONS := EmptyObject])
  {
    var r := CombineOutput(implementations, tests);
    assert Inner(r) == map[];
    assert r.fields == map[REQUIREMENT_ANNOTATIONS := EmptyObject];
  }

  /** Extracting both subtrees from a combined document, the way execute
      extracts them from its inputs, and combining them again gives the same
      document. */
  lemma {:induction false} CombineIdempotent(implementations: Node, tests: Node)
    ensures var c := CombineOutput(implementations, tests);
            CombineOutput(Subtree(c, IMPLEMENTATIONS), Subtree(c, TESTS)) == c
  {
    var c := CombineOutput(implementations, tests);
    var d := CombineOutput(Subtree(c, IMPLEMENTATIONS), Subtree(c, TESTS));
    assert Inner(d) == Inner(c);
    assert d.fields == c.fields;
  }

  /** In sorted key order the combined document's root holds only
      `requirement_annotations`, and below it `implementations` comes before
      `tests`. This is also the order in which combineOutput inserts them, so
      these keys are written in this order whether or not the writer sorts
      tree nodes. */
  lemma {:induction false} CombinedKeyOrder(implementations: Node, tests: Node)
    ensures var r := CombineOutput(implementations, tests);
            SortedKeys(r.fields.Keys) == [REQUIREMENT_ANNOTATIONS]
            && SortedKeys(Inner(r).Keys) == (if IsEmpty(implementations) then [] else [IMPLEMENTATIONS])
                                            + (if IsEmpty(tests) then [] else [TESTS])
  {
    var r := CombineOutput(implementations, tests);
    SortedUnique(SortedKeys(r.fields.Keys), [REQUIREMENT_ANNOTATIONS]);
    var expected := (if IsEmpty(implementations) then [] else [IMPLEMENTATIONS])
                    + (if IsEmpty(tests) then [] else [TESTS]);
    assert Less(IMPLEMENTATIONS, TESTS);
    assert StrictlySorted(expected);
    assert forall x :: x in expected <==> x in Inner(r).Keys;
    SortedUnique(SortedKeys(Inner(r).Keys), expected);
  }
}
