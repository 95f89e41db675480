/** The tree of listeners of one alert type. A plain listener stands for the object it is: two
    leaves are the same object if they have the same identity. */
module AlertMulticasters {
  datatype Listener = Null | Plain(identity: nat) | Multicaster(a: Listener, b: Listener)

  // ---- The code

  /** `add` and `addInternal`. */
  function Add(a: Listener, b: Listener): Listener {
    if a.Null? then b
    else if b.Null? then a
    else Multicaster(a, b)
  }

  /** `remove` and `removeInternal`. */
  function Remove(l: Listener, gone: Listener): Listener {
    if l == gone || l.Null? then Null
    else if l.Multicaster? then
      if gone == l.a then l.b
      else if gone == l.b then l.a
      else
        var a2, b2 := Remove(l.a, gone), Remove(l.b, gone);
        if a2 == l.a && b2 == l.b then l else Add(a2, b2)
    else l
  }

  /** `alert`: the log of the listeners called so far grows by those of the tree. */
  function Alert(l: Listener, log: seq<nat>): seq<nat> {
    match l
    case Null => log
    case Plain(identity) => log + [identity]
    case Multicaster(a, b) => Alert(b, Alert(a, log))
  }

  // ---- The reference: a list that grows at its end and loses last occurrences

  function List(l: Listener): seq<nat> {
    match l
    case Null => []
    case Plain(identity) => [identity]
    case Multicaster(a, b) => List(a) + List(b)
  }

  function DropLast(s: seq<nat>, x: nat): (r: seq<nat>)
    ensures x !in s ==> r == s
    ensures x in s ==> |r| == |s| - 1
  {
    if s == [] then []
    else
      var front, last := s[..|s| - 1], s[|s| - 1];
      assert s == front + [last];
      if last == x then front else DropLast(front, x) + [last]
  }

  /** Exactly one occurrence goes, and it is the last one. */
  lemma {:induction false} DropLastWhere(s: seq<nat>, x: nat) returns (i: nat)
    requires x in s
    ensures i < |s| && s[i] == x && x !in s[i + 1..]
    ensures DropLast(s, x) == s[..i] + s[i + 1..]
  {
    var front, last := s[..|s| - 1], s[|s| - 1];
    assert s == front + [last];
    if last == x {
      i := |s| - 1;
    } else {
      i := DropLastWhere(front, x);
      assert s[i + 1..] == front[i + 1..] + [last];
      assert s[..i] == front[..i];
    }
  }

  /** No null child anywhere, and every right child is a plain listener. */
  predicate LeftLeaning(l: Listener) {
    l.Multicaster? ==> l.b.Plain? && !l.a.Null? && LeftLeaning(l.a)
  }

  lemma {:induction false} AlertVisitsList(l: Listener, log: seq<nat>)
    ensures Alert(l, log) == log + List(l)
  {
    match l
    case Null =>
    case Plain(_) =>
    case Multicaster(a, b) =>
      AlertVisitsList(a, log);
      AlertVisitsList(b, Alert(a, log));
      assert (log + List(a)) + List(b) == log + (List(a) + List(b));
  }

  lemma AddAppends(l: Listener, x: nat)
    requires LeftLeaning(l)
    ensures LeftLeaning(Add(l, Plain(x))) && List(Add(l, Plain(x))) == List(l) + [x]
  {
  }

  lemma {:induction false} RemoveDropsLast(l: Listener, x: nat)
    requires LeftLeaning(l)
    ensures LeftLeaning(Remove(l, Plain(x))) && List(Remove(l, Plain(x))) == DropLast(List(l), x)
    ensures l.Multicaster? ==> !Remove(l, Plain(x)).Null?
  {
    if l.Multicaster? {
      var s := List(l);
      assert s == List(l.a) + [l.b.identity];
      assert s[..|s| - 1] == List(l.a);
      if Plain(x) == l.a && Plain(x) != l.b {
        assert DropLast([x], x) == [];
      } else if Plain(x) != l.b {
        RemoveDropsLast(l.a, x);
      }
    }
  }

  /** Taking back the listener added last restores the very tree. */
  lemma RemoveUndoesAdd(l: Listener, x: nat)
    requires LeftLeaning(l)
    ensures Remove(Add(l, Plain(x)), Plain(x)) == l
  {
  }

  /** Removing a listener that is not there changes nothing. */
  lemma {:induction false} RemoveAbsent(l: Listener, x: nat)
    requires LeftLeaning(l) && x !in List(l)
    ensures Remove(l, Plain(x)) == l
  {
    if l.Multicaster? {
      RemoveAbsent(l.a, x);
      assert l.b.identity in List(l);
    }
  }

  // ---- Runs

  datatype Change = Added(listener: nat) | Removed(listener: nat)

  /** The slot of one alert type after the changes. */
  function Slot(changes: seq<Change>): Listener {
    if changes == [] then Null
    else
      var before, change := Slot(changes[..|changes| - 1]), changes[|changes| - 1];
      if change.Added? then Add(before, Plain(change.listener)) else Remove(before, Plain(change.listener))
  }

  function Registered(changes: seq<Change>): seq<nat> {
    if changes == [] then []
    else
      var before, change := Registered(changes[..|changes| - 1]), changes[|changes| - 1];
      if change.Added? then before + [change.listener] else DropLast(before, change.listener)
  }

  /** After any changes the tree is left-leaning and an alert reaches exactly the registered
      listeners, in order of registration. */
  lemma {:induction false} SlotRefinesList(changes: seq<Change>)
    ensures LeftLeaning(Slot(changes))
    ensures Alert(Slot(changes), []) == Registered(changes)
  {
    SlotIsList(changes);
    AlertVisitsList(Slot(changes), []);
  }

  lemma {:induction false} SlotIsList(changes: seq<Change>)
    ensures LeftLeaning(Slot(changes)) && List(Slot(changes)) == Registered(changes)
  {
    if changes != [] {
      var front, change := changes[..|changes| - 1], changes[|changes| - 1];
      SlotIsList(front);
      if change.Added? {
        AddAppends(Slot(front), change.listener);
      } else {
        RemoveDropsLast(Slot(front), change.listener);
      }
    }
  }

  /** The shape matters: from a tree with a multicaster on the right, which no run builds,
      removing once drops two occurrences. */
  lemma RemoveNeedsLeftLeaning()
    ensures
      var tree := Multicaster(Multicaster(Plain(1), Plain(2)), Multicaster(Plain(3), Plain(2)));
      && !LeftLeaning(tree)
      && List(tree) == [1, 2, 3, 2]
      && List(Remove(tree, Plain(2))) == [1, 3]
      && DropLast(List(tree), 2) == [1, 2, 3]
  {
  }
}
