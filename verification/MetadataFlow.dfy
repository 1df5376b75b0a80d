/** How saved documents flow from attempt to attempt within one run of a suite. */
module MetadataFlow {
  import opened Options
  import opened Json
  import opened Response
  import opened HttpTest

  /** One attempt: the prepared URL, the expectations, and what the server answered. */
  datatype Attempt = Attempt(url: UrlValue, expect_: Expectation, answer: Option<Received>)

  predicate Saving(lib: Library, a: Attempt) {
    a.answer.Some? && Saves(lib, a.expect_, a.answer.value)
  }

  function SavedDoc(lib: Library, a: Attempt): Json
    requires Saving(lib, a)
  {
    lib.decode(a.answer.value.body).value
  }

  /** The metadata after a sequence of attempts. */
  function DocsAfter(lib: Library, attempts: seq<Attempt>): map<string, Json> {
    if attempts == [] then map[]
    else
      var front, last := attempts[..|attempts| - 1], attempts[|attempts| - 1];
      if Saving(lib, last) then DocsAfter(lib, front)[last.expect_.id := SavedDoc(lib, last)]
      else DocsAfter(lib, front)
  }

  /** Attempt i is the latest that saved a document under id. */
  predicate LatestSave(lib: Library, attempts: seq<Attempt>, id: string, i: nat) {
    && i < |attempts| && Saving(lib, attempts[i]) && attempts[i].expect_.id == id
    && forall k | i < k < |attempts| :: Saving(lib, attempts[k]) ==> attempts[k].expect_.id != id
  }

  /** The metadata maps each id to the document of the latest saving attempt, and holds nothing else. */
  lemma {:induction false} DocsAreLatest(lib: Library, attempts: seq<Attempt>, id: string)
    ensures id in DocsAfter(lib, attempts) <==> exists i: nat :: LatestSave(lib, attempts, id, i)
    ensures forall i: nat | LatestSave(lib, attempts, id, i) ::
              DocsAfter(lib, attempts)[id] == SavedDoc(lib, attempts[i])
  {
    if attempts != [] {
      var n := |attempts| - 1;
      var front, last := attempts[..n], attempts[n];
      DocsAreLatest(lib, front, id);
      if Saving(lib, last) && last.expect_.id == id {
        assert LatestSave(lib, attempts, id, n);
        assert forall i: nat | LatestSave(lib, attempts, id, i) :: i == n;
      } else {
        assert forall i: nat :: LatestSave(lib, attempts, id, i) <==> LatestSave(lib, front, id, i);
      }
    }
  }

  /** The URLs that the attempts request, each rendered with the metadata of the attempts before it. */
  predicate IssuedInOrder(lib: Library, print_: Printer, attempts: seq<Attempt>, issued: seq<UrlValue>) {
    |issued| == |attempts|
    && forall k | 0 <= k < |attempts| :: issued[k] == Issue(attempts[k].url, DocsAfter(lib, attempts[..k]), print_)
  }

  lemma OneMoreIssued(lib: Library, print_: Printer, attempts: seq<Attempt>, issued: seq<UrlValue>,
                      a: Attempt, u: UrlValue)
    requires IssuedInOrder(lib, print_, attempts, issued) && u == Issue(a.url, DocsAfter(lib, attempts), print_)
    ensures IssuedInOrder(lib, print_, attempts + [a], issued + [u])
  {
    var all := attempts + [a];
    assert all[..|attempts|] == attempts;
    forall k | 0 <= k < |all| ensures (issued + [u])[k] == Issue(all[k].url, DocsAfter(lib, all[..k]), print_) {
      if k < |attempts| { assert all[..k] == attempts[..k]; }
    }
  }

  lemma NothingIssued(lib: Library, print_: Printer)
    ensures IssuedInOrder(lib, print_, [], []) && DocsAfter(lib, []) == map[]
  {
  }
}
