/** Results that arrive page by page. */
module Pages {

  function Flatten<T>(pages: seq<seq<T>>): seq<T> {
    if pages == [] then [] else Flatten(pages[..|pages| - 1]) + pages[|pages| - 1]
  }

  lemma {:induction false} FlattenPrefix<T>(pages: seq<seq<T>>, i: nat)
    requires i <= |pages|
    ensures Flatten(pages[..i]) <= Flatten(pages)
    ensures i < |pages| ==> Flatten(pages[..i + 1]) == Flatten(pages[..i]) + pages[i]
    decreases |pages| - i
  {
    if i == |pages| {
      assert pages[..i] == pages;
    } else {
      assert pages[..i + 1][..i] == pages[..i];
      FlattenPrefix(pages, i + 1);
    }
  }
}
