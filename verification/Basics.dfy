/** Small notions shared by the components. */
module Basics {

  /** Values that may be missing: nullable columns and lookups that may fail. */
  datatype Option<+T> = None | Some(value: T)

  ghost predicate IsGreatest(s: set<nat>, m: nat) {
    m in s && forall y :: y in s ==> y <= m
  }

  lemma GreatestExists(s: set<nat>)
    requires s != {}
    ensures exists m :: IsGreatest(s, m)
  {
    var x :| x in s;
    var rest := s - {x};
    assert s == rest + {x};
    if rest == {} {
      assert IsGreatest(s, x);
    } else {
      GreatestExists(rest);
      var m :| IsGreatest(rest, m);
      assert IsGreatest(s, if m < x then x else m);
    }
  }

  function Greatest(s: set<nat>): (m: nat)
    requires s != {}
    ensures m in s && forall y :: y in s ==> y <= m
  {
    GreatestExists(s);
    assert exists m :: m in s && forall y :: y in s ==> y <= m by {
      var m :| IsGreatest(s, m);
    }
    var m :| m in s && forall y :: y in s ==> y <= m;
    m
  }
}
