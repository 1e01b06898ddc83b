/** Least and greatest numbers. */
module Numbers {
  function Min(a: int, b: int): int { if a <= b then a else b }

  function Max(a: int, b: int): int { if a <= b then b else a }

  ghost function Least(keys: set<nat>): (k: nat)
    requires keys != {}
    ensures k in keys && forall j :: j in keys ==> k <= j
  {
    LeastExists(keys);
    var k :| k in keys && forall j :: j in keys ==> k <= j;
    k
  }

  lemma LeastExists(keys: set<nat>)
    requires keys != {}
    ensures exists k :: k in keys && forall j :: j in keys ==> k <= j
  {
    var k :| k in keys;
    LeastBelow(keys, k);
  }

  lemma {:induction false} LeastBelow(keys: set<nat>, k: nat)
    requires k in keys
    ensures exists m :: m in keys && forall j :: j in keys ==> m <= j
    decreases k
  {
    if j :| j in keys && j < k {
      LeastBelow(keys, j);
    }
  }

  ghost function Greatest(keys: set<nat>): (k: nat)
    requires keys != {}
    ensures k in keys && forall j :: j in keys ==> j <= k
  {
    GreatestExists(keys);
    var k :| k in keys && forall j :: j in keys ==> j <= k;
    k
  }

  lemma GreatestExists(keys: set<nat>)
    requires keys != {}
    ensures exists k :: k in keys && forall j :: j in keys ==> j <= k
  {
    var k := GreatestIn(keys);
  }

  lemma {:induction false} GreatestIn(keys: set<nat>) returns (m: nat)
    requires keys != {}
    ensures m in keys && forall j :: j in keys ==> j <= m
    decreases keys
  {
    var a :| a in keys;
    var rest := keys - {a};
    assert forall j :: j in keys ==> j == a || j in rest;
    if rest == {} {
      m := a;
    } else {
      var b := GreatestIn(rest);
      m := if a < b then b else a;
    }
  }

  method LeastKey(keys: set<nat>) returns (k: nat)
    requires keys != {}
    ensures k == Least(keys)
  {
    LeastExists(keys);
    k :| k in keys && forall j :: j in keys ==> k <= j;
  }

  method GreatestKey(keys: set<nat>) returns (k: nat)
    requires keys != {}
    ensures k == Greatest(keys)
  {
    GreatestExists(keys);
    k :| k in keys && forall j :: j in keys ==> j <= k;
  }
}
