/** Push iterators: what a consumer that may stop at any element sees of a stream. */
module Push {

  /** A consumer is told every element in turn; `more` is its answer given all it has seen. */
  type Consumer<!T> = seq<T> -> bool

  function CutFrom<T>(seen: seq<T>, todo: seq<T>, more: Consumer<T>): seq<T>
    decreases |todo|
  {
    if todo == [] then seen
    else if more(seen + [todo[0]]) then CutFrom(seen + [todo[0]], todo[1..], more)
    else seen + [todo[0]]
  }

  /** What the consumer sees of `events`. */
  function Cut<T>(events: seq<T>, more: Consumer<T>): seq<T> {
    CutFrom([], events, more)
  }

  lemma {:induction false} CutFromTells<T>(seen: seq<T>, todo: seq<T>, more: Consumer<T>)
    ensures var t := CutFrom(seen, todo, more);
            && |seen| <= |t| && t <= seen + todo
            && (forall k :: |seen| < k < |t| ==> more(t[..k]))
            && (t != seen + todo ==> |t| > |seen| && !more(t))
    decreases |todo|
  {
    if todo != [] {
      var d := seen + [todo[0]];
      assert d + todo[1..] == seen + todo;
      if more(d) {
        CutFromTells(d, todo[1..], more);
        var t := CutFrom(d, todo[1..], more);
        assert t[..|d|] == d;
      }
    }
  }

  /** The trace is a prefix of the stream, the consumer said yes before each further element,
      and only its refusal cuts the trace short. */
  lemma CutTells<T>(events: seq<T>, more: Consumer<T>)
    ensures var t := Cut(events, more);
            && t <= events
            && (forall k :: 0 < k < |t| ==> more(t[..k]))
            && (t != events ==> t != [] && !more(t))
  {
    assert [] + events == events;
    CutFromTells([], events, more);
  }

  /** A trace with these properties is the cut: it is determined by them. */
  lemma CutIsUnique<T>(t: seq<T>, events: seq<T>, more: Consumer<T>)
    requires t <= events && (forall k :: 0 < k < |t| ==> more(t[..k]))
    requires t != events ==> t != [] && !more(t)
    ensures t == Cut(events, more)
  {
    var u := Cut(events, more);
    CutTells(events, more);
    var n := if |t| < |u| then |t| else |u|;
    assert t[..n] == events[..n] == u[..n];
    assert t[..|t|] == t && u[..|u|] == u;
  }

  lemma {:induction false} CutFromAppend<T>(seen: seq<T>, a: seq<T>, b: seq<T>, more: Consumer<T>)
    ensures CutFrom(seen, a + b, more)
            == if CutFrom(seen, a, more) == seen + a && (a == [] || more(seen + a))
               then CutFrom(seen + a, b, more) else CutFrom(seen, a, more)
    decreases |a|
  {
    if a == [] {
      assert a + b == b && seen + a == seen;
    } else {
      var d := seen + [a[0]];
      assert (a + b)[1..] == a[1..] + b && d + a[1..] == seen + a;
      if more(d) {
        CutFromAppend(d, a[1..], b, more);
      }
    }
  }
}
