/** Values shared by the queues. */
module Orders {

  datatype Option<+T> = None | Some(value: T) {
    function GetOr(default: T): T {
      if Some? then value else default
    }
  }

  /** What an order carries about the workflow that started it. */
  datatype ParentInfo = ParentInfo(wfiid: int, stepid: int, ind: int, subworkflow: bool)

  /** A thread that asks a queue for work, with its execution connection. */
  datatype Waiter = Waiter(tid: int, conn: int)

  function MinKey(keys: set<int>): (m: int)
    requires keys != {}
    ensures m in keys && forall k :: k in keys ==> m <= k
  {
    MinExists(keys);
    var m :| m in keys && forall k :: k in keys ==> m <= k;
    m
  }

  lemma Inhabited(keys: set<int>)
    ensures keys == {} || exists x :: x in keys
  {
    if forall x :: x !in keys {
      assert keys == {};
    }
  }

  lemma {:induction false} MinExists(keys: set<int>)
    requires keys != {}
    ensures exists m :: m in keys && forall k :: k in keys ==> m <= k
    decreases |keys|
  {
    Inhabited(keys);
    var x :| x in keys;
    var rest := keys - {x};
    if rest == {} {
      assert keys == {x};
    } else {
      MinExists(rest);
      var m :| m in rest && forall k :: k in rest ==> m <= k;
      var least := if x < m then x else m;
      assert forall k :: k in keys ==> k == x || k in rest;
      assert least in keys && forall k :: k in keys ==> least <= k;
    }
  }

  lemma CardinalityMonotone<T>(a: set<T>, b: set<T>)
    requires a <= b
    ensures |a| <= |b|
  {
    assert b == a + (b - a);
  }

  lemma {:induction false} FreshThread(taken: set<int>) returns (t: int)
    ensures t > 0 && forall u :: u in taken ==> u < t
    decreases |taken|
  {
    Inhabited(taken);
    t := 1;
    if taken != {} {
      var u :| u in taken;
      var above := FreshThread(taken - {u});
      t := if u < above then above else u + 1;
      assert forall w :: w in taken ==> w == u || w in taken - {u};
    }
  }
}
