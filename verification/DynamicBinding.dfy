/** Shallow dynamic binding from C, src/lisp/dynbind.c: the values of symbols, and a stack of what they were before. */
module DynamicBinding {

  /** A binding of no symbol is NO_SYMBOL's; unbinding leaves one behind. */
  const NO_SYMBOL := 0

  datatype Binding = Binding(value: int, symbol: int)

  /** The values after binding the symbols of a list to theirs, in order. */
  function Bound(v: map<int, int>, b: seq<Binding>): map<int, int> {
    if b == [] then v else Bound(v, b[..|b| - 1])[b[|b| - 1].symbol := b[|b| - 1].value]
  }

  /** What binding them leaves on the stack. */
  function Saved(v: map<int, int>, b: seq<Binding>): seq<Binding>
    requires forall i :: 0 <= i < |b| ==> b[i].symbol in v
  {
    if b == [] then []
    else
      BoundKeys(v, b[..|b| - 1]);
      Saved(v, b[..|b| - 1]) + [Binding(Bound(v, b[..|b| - 1])[b[|b| - 1].symbol], b[|b| - 1].symbol)]
  }

  lemma {:induction false} BoundKeys(v: map<int, int>, b: seq<Binding>)
    ensures forall x :: x in v ==> x in Bound(v, b)
  {
    if b != [] {
      BoundKeys(v, b[..|b| - 1]);
    }
  }

  /** The values after the bindings of a stack have been undone, the last one first. */
  function Undone(v: map<int, int>, s: seq<Binding>): map<int, int>
    decreases |s|
  {
    if s == [] then v
    else
      var b := s[|s| - 1];
      Undone(if b.symbol == NO_SYMBOL then v else v[b.symbol := b.value], s[..|s| - 1])
  }

  lemma {:induction false} SavedLength(v: map<int, int>, b: seq<Binding>)
    requires forall i :: 0 <= i < |b| ==> b[i].symbol in v
    ensures |Saved(v, b)| == |b|
  {
    if b != [] {
      SavedLength(v, b[..|b| - 1]);
    }
  }

  /** One more binding saves one more value: what bind_variable does to the stack. */
  lemma SavedNext(v: map<int, int>, b: seq<Binding>, symbol: int, value: int)
    requires (forall i :: 0 <= i < |b| ==> b[i].symbol in v) && symbol in v
    ensures symbol in Bound(v, b) && Bound(v, b + [Binding(value, symbol)]) == Bound(v, b)[symbol := value]
    ensures Saved(v, b + [Binding(value, symbol)]) == Saved(v, b) + [Binding(Bound(v, b)[symbol], symbol)]
  {
    BoundKeys(v, b);
    assert (b + [Binding(value, symbol)])[..|b|] == b;
  }

  /** Undoing what binding any list of symbols, with repetitions or not, has saved restores the values of all. */
  lemma {:induction false} UndoneBound(v: map<int, int>, b: seq<Binding>)
    requires forall i :: 0 <= i < |b| ==> b[i].symbol in v && b[i].symbol != NO_SYMBOL
    ensures Undone(Bound(v, b), Saved(v, b)) == v
  {
    if b != [] {
      var r, x := b[..|b| - 1], b[|b| - 1].symbol;
      BoundKeys(v, r);
      UndoneBound(v, r);
      var before := Bound(v, r);
      assert Bound(v, b)[x := before[x]] == before;
      assert Saved(v, b)[..|Saved(v, b)| - 1] == Saved(v, r);
    }
  }

  class BindingStack {
    var values: map<int, int>
    const stack: array<Binding>
    var bsp: nat

    constructor (values: map<int, int>, size: nat)
      ensures this.values == values && bsp == 0 && stack.Length == size && fresh(stack)
    {
      this.values := values;
      stack := new Binding[size](i => Binding(0, NO_SYMBOL));
      bsp := 0;
    }

    /** bind_variable */
    method BindVariable(symbol: int, value: int)
      requires symbol in values && bsp < stack.Length
      modifies this, stack
      ensures bsp == old(bsp) + 1 && values == old(values)[symbol := value]
      ensures stack[..bsp] == old(stack[..bsp]) + [Binding(old(values)[symbol], symbol)]
      ensures forall i :: bsp <= i < stack.Length ==> stack[i] == old(stack[i])
    {
      var oldValue := values[symbol];
      var binding := bsp;
      bsp := binding + 1;
      stack[binding] := stack[binding].(value := oldValue);
      stack[binding] := stack[binding].(symbol := symbol);
      values := values[symbol := value];
    }

    /** unbind */
    method Unbind()
      requires 0 < bsp <= stack.Length
      modifies this, stack
      ensures bsp == old(bsp) - 1 && values == old(values)[old(stack[bsp - 1]).symbol := old(stack[bsp - 1]).value]
      ensures stack[..bsp] == old(stack[..bsp - 1]) && stack[bsp].symbol == NO_SYMBOL
      ensures forall i :: bsp < i < stack.Length ==> stack[i] == old(stack[i])
    {
      var binding := bsp - 1;
      var symbol := stack[binding].symbol;
      values := values[symbol := stack[binding].value];
      stack[binding] := stack[binding].(symbol := NO_SYMBOL);
      bsp := binding;
    }

    /** unbind_to_here */
    method UnbindToHere(target: nat)
      requires target <= bsp <= stack.Length
      modifies this, stack
      ensures bsp == target && values == Undone(old(values), old(stack[target..bsp]))
      ensures stack[..target] == old(stack[..target])
      ensures forall i :: target <= i < old(bsp) ==> stack[i].symbol == NO_SYMBOL
      ensures forall i :: old(bsp) <= i < stack.Length ==> stack[i] == old(stack[i])
    {
      var binding := bsp;
      assert old(stack[target..bsp])[..binding - target] == old(stack[target..bsp]);
      while target < binding
        invariant target <= binding <= bsp && bsp == old(bsp)
        invariant Undone(values, old(stack[target..bsp])[..binding - target])
                    == Undone(old(values), old(stack[target..bsp]))
        invariant forall i :: 0 <= i < stack.Length && !(binding <= i < bsp) ==> stack[i] == old(stack[i])
        invariant forall i :: binding <= i < bsp ==> stack[i].symbol == NO_SYMBOL
      {
        ghost var s := old(stack[target..bsp])[..binding - target];
        binding := binding - 1;
        assert s[|s| - 1] == stack[binding] && s[..|s| - 1] == old(stack[target..bsp])[..binding - target];
        var symbol := stack[binding].symbol;
        if symbol != NO_SYMBOL {
          values := values[symbol := stack[binding].value];
          stack[binding] := stack[binding].(symbol := NO_SYMBOL);
        }
      }
      bsp := binding;
    }
  }
}
