/**
 * The selector matcher: a `matchLabels` selector is a conjunction of label
 * equalities, and fetching lists the ConfigMaps of the definition's source
 * namespace that satisfy it.
 */
module Selector {
  import opened Wrappers
  import opened Kube

  /** Every selector key is present among the labels with the same value (an empty selector matches everything). */
  predicate Matches(selector: map<string, string>, labels: map<string, string>) {
    forall k :: k in selector ==> k in labels && labels[k] == selector[k]
  }

  /** The objects of `listing` that live in `namespace` and satisfy `selector`, in listing order. */
  function Select(listing: seq<ConfigMap>, namespace: string, selector: map<string, string>): (r: seq<ConfigMap>)
    ensures forall c :: c in r <==> c in listing && c.namespace == namespace && Matches(selector, c.labels)
    ensures |r| <= |listing|
  {
    if listing == [] then []
    else
      var rest := Select(listing[1..], namespace, selector);
      if listing[0].namespace == namespace && Matches(selector, listing[0].labels) then [listing[0]] + rest else rest
  }

  /** Selection keeps the order of the listing: it distributes over concatenation. */
  lemma {:induction false} SelectConcat(a: seq<ConfigMap>, b: seq<ConfigMap>, namespace: string, selector: map<string, string>)
    ensures Select(a + b, namespace, selector) == Select(a, namespace, selector) + Select(b, namespace, selector)
  {
    if a != [] {
      assert (a + b)[1..] == a[1..] + b;
      SelectConcat(a[1..], b, namespace, selector);
    } else {
      assert a + b == b;
    }
  }

  /** A listing none of whose objects is selected selects nothing. */
  lemma {:induction false} SelectNone(listing: seq<ConfigMap>, namespace: string, selector: map<string, string>)
    requires forall c :: c in listing && c.namespace == namespace ==> !Matches(selector, c.labels)
    ensures Select(listing, namespace, selector) == []
  {
    if listing != [] {
      assert listing[0] in listing;
      SelectNone(listing[1..], namespace, selector);
    }
  }

  /**
   * `fetchMatchingConfigMaps`: the List call on the definition's source
   * namespace with its selector. `listing` is the API server's answer before
   * filtering; `listFault` is its transport error. A failed list gives no
   * items, only the error.
   */
  function FetchMatching(m: ConfigMirror, listing: seq<ConfigMap>, listFault: Option<string>): (r: Result<seq<ConfigMap>, Error>)
    ensures r.Failure? <==> listFault.Some?
    ensures r.Failure? ==> r.error == ApiFault(listFault.value)
    ensures r.Success? ==>
      forall c :: c in r.value <==> c in listing && c.namespace == m.sourceNamespace && Matches(m.matchLabels, c.labels)
  {
    match listFault
    case Some(msg) => Failure(ApiFault(msg))
    case None => Success(Select(listing, m.sourceNamespace, m.matchLabels))
  }

  /** Objects of one namespace with unique keys have unique names. */
  lemma SelectedNamesUnique(listing: seq<ConfigMap>, namespace: string, selector: map<string, string>, c: ConfigMap, d: ConfigMap)
    requires UniqueKeys(listing)
    requires c in Select(listing, namespace, selector) && d in Select(listing, namespace, selector)
    requires c.name == d.name
    ensures c == d
  {
    assert KeyOf(c) == KeyOf(d);
  }
}
