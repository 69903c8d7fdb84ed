/** Client handles and the rule that turns an attribute name into a handle
    bound to that remote method (`__getattr__`). */
module Handles {
  import opened Wrappers
  import opened RpcErrors

  /** A client handle. The event loop and the HTTP session are references the
      model does not look into, so they appear as identity tokens. A handle
      whose bound method name is None is in factory mode. */
  datatype Handle = Handle(url: string, loop: nat, bound: Option<string>, timeout: int, session: nat)

  /** The name both starts and ends with two underscores (the two may overlap). */
  predicate IsDunder(name: string)
  {
    && |name| >= 2
    && name[..2] == "__"
    && name[|name| - 2..] == "__"
  }

  /** `__getattr__`: a dunder name raises AttributeError; any other name gives
      a new handle bound to it, sharing url, loop, timeout and session. */
  function GetAttr(h: Handle, name: string): (r: Outcome<Handle>)
    ensures r.Err? <==> IsDunder(name)
    ensures r.Err? ==> r.error == AttributeError
    ensures r.Ok? ==> r.value.bound == Some(name)
    ensures r.Ok? ==> r.value == h.(bound := r.value.bound)
  {
    if IsDunder(name) then Err(AttributeError)
    else Ok(Handle(h.url, h.loop, Some(name), h.timeout, h.session))
  }

  /** Binding is not cumulative: `client.a.b` is bound to "b" alone, and still
      shares everything else with `client`. */
  lemma RebindingKeepsLastName(h: Handle, a: string, b: string)
    requires !IsDunder(a)
    ensures GetAttr(GetAttr(h, a).value, b) == GetAttr(h, b)
  {
  }

  /** Which names are refused. */
  lemma DunderExamples()
    ensures IsDunder("__") && IsDunder("___") && IsDunder("__aenter__")
    ensures !IsDunder("_") && !IsDunder("__getinfo") && !IsDunder("getinfo__") && !IsDunder("getinfo")
  {
    assert "__aenter__"[|"__aenter__"| - 2..] == "__";
    assert "__getinfo"[|"__getinfo"| - 2..] != "__" by {
      assert "__getinfo"[|"__getinfo"| - 2..][0] == 'f';
    }
    assert "getinfo__"[..2] != "__" by {
      assert "getinfo__"[..2][0] == 'g';
    }
    assert "getinfo"[..2] != "__" by {
      assert "getinfo"[..2][0] == 'g';
    }
  }
}
