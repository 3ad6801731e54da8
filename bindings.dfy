/**
  The image sorter's key bindings (sorter.py:237-258): a dictionary loaded
  from a JSON file, whose keys are therefore strings, normalised so that
  every key `int()` accepts is also bound as a key code, Escape (key code
  9) quits, and "r" reloads unless the file binds it otherwise.
*/
module KeyBindings {
  import opened Wrappers
  import opened Strings

  /** A key of the bindings: a Tk key code or a key's character. */
  datatype Key = Code(code: int) | Char(text: string)

  /** The order in which the loaded dictionary yields its keys: every key
      once. */
  ghost predicate Listing(loaded: map<string, string>, order: seq<string>) {
    && (forall k :: k in loaded <==> k in order)
    && (forall i, j :: 0 <= i < j < |order| ==> order[i] != order[j])
  }

  /** The last key in `order` that `read` turns into `n`; the bindings
      read keys with `int()`, that is `ParseInt`. */
  function LastKey(order: seq<string>, read: string -> Option<int>, n: int): (r: Option<string>)
    ensures r.Some? ==> r.value in order && read(r.value) == Some(n)
    decreases |order|
  {
    if order == [] then None
    else if read(order[|order| - 1]) == Some(n) then Some(order[|order| - 1])
    else LastKey(order[..|order| - 1], read, n)
  }

  /** `LastKey` finds a key exactly when some key reads as `n`, and then
      the one at the highest position that does. */
  lemma {:induction false} LastKeyIsLast(order: seq<string>, read: string -> Option<int>, n: int)
    ensures LastKey(order, read, n).None? <==> forall i :: 0 <= i < |order| ==> read(order[i]) != Some(n)
    ensures LastKey(order, read, n).Some? ==>
      exists i :: 0 <= i < |order| && order[i] == LastKey(order, read, n).value
        && forall j :: i < j < |order| ==> read(order[j]) != Some(n)
    decreases |order|
  {
    if order != [] {
      var last := |order| - 1;
      var front := order[..last];
      LastKeyIsLast(front, read, n);
      if read(order[last]) != Some(n) {
        assert forall i :: 0 <= i < last ==> order[i] == front[i];
        if LastKey(front, read, n).Some? {
          var i :| 0 <= i < |front| && front[i] == LastKey(front, read, n).value
            && forall j :: i < j < |front| ==> read(front[j]) != Some(n);
          assert order[i] == LastKey(order, read, n).value;
        }
      }
    }
  }

  /** One more key: it wins when it reads as `n`. */
  lemma LastKeyStep(order: seq<string>, read: string -> Option<int>, i: nat, n: int)
    requires i < |order|
    ensures LastKey(order[..i + 1], read, n) == if read(order[i]) == Some(n) then Some(order[i]) else LastKey(order[..i], read, n)
  {
    assert order[..i + 1][..i] == order[..i] && order[..i + 1][i] == order[i];
  }

  /** The bindings after the first `i` keys of `order`: every loaded key
      kept, and each number bound to the value of the last of those keys
      that reads as it. */
  ghost predicate CodesAdded(bindings: map<Key, string>, loaded: map<string, string>, order: seq<string>, read: string -> Option<int>, i: nat)
    requires Listing(loaded, order) && i <= |order|
  {
    && (forall k :: k in loaded ==> Char(k) in bindings && bindings[Char(k)] == loaded[k])
    && (forall t :: Char(t) in bindings ==> t in loaded)
    && (forall n :: Code(n) in bindings <==> LastKey(order[..i], read, n).Some?)
    && (forall n :: Code(n) in bindings ==> LastKey(order[..i], read, n).Some? && bindings[Code(n)] == loaded[LastKey(order[..i], read, n).value])
  }

  /** One turn of the loop: binding the number the next key reads as, if
      any, keeps `CodesAdded` for one more key. */
  lemma AddKeyCodeStep(bindings: map<Key, string>, loaded: map<string, string>, order: seq<string>, read: string -> Option<int>, i: nat)
    requires Listing(loaded, order) && i < |order|
    requires CodesAdded(bindings, loaded, order, read, i)
    ensures order[i] in loaded
    ensures var code := read(order[i]);
      CodesAdded(if code.Some? then bindings[Code(code.value) := loaded[order[i]]] else bindings, loaded, order, read, i + 1)
  {
    forall n { LastKeyStep(order, read, i, n); }
  }

  /** The loop at sorter.py:245-252, with `read` standing for the
      conversion `int(key)` it tries on each key: every key is kept, and a
      key `read` accepts is also bound, under the number, to its value, a
      later key winning over an earlier one that reads as the same number. */
  method AddKeyCodes(loaded: map<string, string>, order: seq<string>, read: string -> Option<int>)
    returns (bindings: map<Key, string>)
    requires Listing(loaded, order)
    ensures forall k :: k in loaded ==> Char(k) in bindings && bindings[Char(k)] == loaded[k]
    ensures forall t :: Char(t) in bindings ==> t in loaded
    ensures forall n :: Code(n) in bindings <==> LastKey(order, read, n).Some?
    ensures forall n :: Code(n) in bindings ==> LastKey(order, read, n).Some? && bindings[Code(n)] == loaded[LastKey(order, read, n).value]
  {
    bindings := map k | k in loaded :: Char(k) := loaded[k];
    for i := 0 to |order|
      invariant CodesAdded(bindings, loaded, order, read, i)
    {
      AddKeyCodeStep(bindings, loaded, order, read, i);
      var key := order[i];
      var code := read(key);
      if code.Some? {
        bindings := bindings[Code(code.value) := loaded[key]];
      }
    }
    assert order[..|order|] == order;
  }

  /** sorter.py:245-258: the key codes added, then code 9 bound to QUIT
      whatever the file said, and "r" bound to RELOAD only when the file
      does not bind it. */
  method NormaliseBindings(loaded: map<string, string>, order: seq<string>) returns (bindings: map<Key, string>)
    requires Listing(loaded, order)
    ensures forall k :: k in loaded ==> Char(k) in bindings && bindings[Char(k)] == loaded[k]
    ensures Char("r") in bindings && ("r" !in loaded ==> bindings[Char("r")] == "RELOAD")
    ensures forall t :: Char(t) in bindings ==> t in loaded || t == "r"
    ensures Code(9) in bindings && bindings[Code(9)] == "QUIT"
    ensures forall n :: n != 9 ==> (Code(n) in bindings <==> LastKey(order, ParseInt, n).Some?)
    ensures forall n :: n != 9 && Code(n) in bindings ==>
      LastKey(order, ParseInt, n).Some? && bindings[Code(n)] == loaded[LastKey(order, ParseInt, n).value]
  {
    bindings := AddKeyCodes(loaded, order, ParseInt);
    bindings := bindings[Code(9) := "QUIT"];
    if Char("r") !in bindings {
      bindings := bindings[Char("r") := "RELOAD"];
    }
  }
}
