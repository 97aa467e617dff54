/** Option and Result, the two failure-carrying values the model uses. */
module Wrappers {

  /** A value that may be missing: a JavaScript `undefined`, a Python call that raised. */
  datatype Option<+T> = None | Some(value: T)

  /** Either the value a step produced or the reason it stopped. */
  datatype Result<+R, +E> = Success(value: R) | Failure(error: E)

  /**
   * Applies `f` to every element in order, as a loop that stops at the first failure does:
   * the list of results, or the first failure.
   */
  function MapAll<A, B, E>(f: A -> Result<B, E>, s: seq<A>): Result<seq<B>, E> {
    if s == [] then Success([])
    else match MapAll(f, s[..|s| - 1])
      case Failure(e) => Failure(e)
      case Success(done) =>
        match f(s[|s| - 1])
        case Failure(e) => Failure(e)
        case Success(b) => Success(done + [b])
  }

  /** It succeeds exactly when every element succeeds, and then gives one result per element, in order. */
  lemma {:induction false} MapAllSucceeds<A, B, E>(f: A -> Result<B, E>, s: seq<A>)
    ensures MapAll(f, s).Success? <==> forall i :: 0 <= i < |s| ==> f(s[i]).Success?
    ensures MapAll(f, s).Success? ==>
      |MapAll(f, s).value| == |s| &&
      forall i :: 0 <= i < |s| ==> MapAll(f, s).value[i] == f(s[i]).value
  {
    if s != [] {
      var init := s[..|s| - 1];
      MapAllSucceeds(f, init);
      assert forall i :: 0 <= i < |init| ==> init[i] == s[i];
    }
  }

  /** A failure is the failure of the first element that fails. */
  lemma {:induction false} MapAllFirstFailure<A, B, E>(f: A -> Result<B, E>, s: seq<A>) returns (k: nat)
    requires MapAll(f, s).Failure?
    ensures k < |s| && f(s[k]) == Failure(MapAll(f, s).error)
    ensures forall j :: 0 <= j < k ==> f(s[j]).Success?
  {
    var init := s[..|s| - 1];
    if MapAll(f, init).Failure? {
      k := MapAllFirstFailure(f, init);
      assert forall j :: 0 <= j <= k ==> init[j] == s[j];
    } else {
      MapAllSucceeds(f, init);
      assert forall j :: 0 <= j < |init| ==> init[j] == s[j];
      k := |s| - 1;
    }
  }

  /** Once a prefix fails, every longer prefix fails the same way. */
  lemma {:induction false} MapAllFailureSticks<A, B, E>(f: A -> Result<B, E>, s: seq<A>, k: nat, m: nat)
    requires k <= m <= |s|
    requires MapAll(f, s[..k]).Failure?
    ensures MapAll(f, s[..m]) == MapAll(f, s[..k])
    decreases m - k
  {
    if k < m {
      assert s[..k + 1][..k] == s[..k];
      MapAllFailureSticks(f, s, k + 1, m);
    }
  }
}
