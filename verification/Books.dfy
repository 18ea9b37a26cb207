/**
  The order book as a value: every non-empty queue under its side, instrument and price.
  An instrument entry or price level holding no order is not part of it.
*/
module Books {
  import opened Matching

  type Book = map<Key, seq<Order>>

  function Queue(b: Book, k: Key): seq<Order> {
    if k in b then b[k] else []
  }

  function Put(b: Book, k: Key, queue: seq<Order>): Book {
    if queue == [] then b - {k} else b[k := queue]
  }

  // ---------------------------------------------------------------- operations

  datatype Submission = Submission(book: Book, execs: seq<Exec>)

  function Submit(b: Book, o: Order): Submission {
    if o.qty <= 0 then Submission(b, [])
    else
      var m := Match(o, Queue(b, KeyOf(o).Opposite()));
      var matched := Put(b, KeyOf(o).Opposite(), m.queue);
      if m.left > 0 then
        Submission(Put(matched, KeyOf(o), Queue(matched, KeyOf(o)) + [o.(qty := m.left)]), m.execs)
      else
        Submission(matched, m.execs)
  }

  predicate Mine(o: Order, id: int, fd: int, serial: nat) {
    o.id == id && o.ownerFd == fd && o.ownerSeq == serial
  }

  /** Order `id` rests in the book. */
  ghost predicate Rests(b: Book, id: int) {
    exists k, i :: k in b && 0 <= i < |b[k]| && b[k][i].id == id
  }

  /** Order `id` rests in the book and belongs to that very connection. */
  ghost predicate Owned(b: Book, id: int, fd: int, serial: nat) {
    exists k, i :: k in b && 0 <= i < |b[k]| && Mine(b[k][i], id, fd, serial)
  }

  function Without(queue: seq<Order>, id: int): seq<Order> {
    if queue == [] then []
    else if queue[0].id == id then Without(queue[1..], id)
    else [queue[0]] + Without(queue[1..], id)
  }

  /** The book with every trace of order `id` removed. */
  function Delete(b: Book, id: int): Book {
    map k | k in b && Without(b[k], id) != [] :: Without(b[k], id)
  }

  /** Whether a cancel succeeds, and the book after it. */
  ghost function Cancel(b: Book, id: int, fd: int, serial: nat): (bool, Book) {
    if Owned(b, id, fd, serial) then (true, Delete(b, id)) else (false, b)
  }

  function NotOf(queue: seq<Order>, fd: int): seq<Order> {
    if queue == [] then []
    else if queue[0].ownerFd == fd then NotOf(queue[1..], fd)
    else [queue[0]] + NotOf(queue[1..], fd)
  }

  /** The book with the orders of one descriptor filtered out. */
  function Purge(b: Book, fd: int): Book {
    map k | k in b && NotOf(b[k], fd) != [] :: NotOf(b[k], fd)
  }

  // ----------------------------------------------------------------- invariant

  predicate FiledUnder(queue: seq<Order>, k: Key) {
    forall i :: 0 <= i < |queue| ==> KeyOf(queue[i]) == k
  }

  /** No empty level, every order under its own key with something left, each queue in order of arrival. */
  predicate Filed(b: Book) {
    forall k :: k in b ==> b[k] != [] && FiledUnder(b[k], k) && Positive(b[k]) && Increasing(b[k])
  }

  predicate NeverCrossed(b: Book) {
    forall k :: k in b ==> k.Opposite() !in b
  }

  ghost predicate UniqueIds(b: Book) {
    forall k, k', i, j ::
      k in b && k' in b && 0 <= i < |b[k]| && 0 <= j < |b[k']| && b[k][i].id == b[k'][j].id ==> k == k' && i == j
  }

  ghost predicate Inv(b: Book) {
    Filed(b) && NeverCrossed(b) && UniqueIds(b)
  }

  /** `id` is larger than the id of every resting order. */
  ghost predicate Fresh(b: Book, id: int) {
    forall k, i :: k in b && 0 <= i < |b[k]| ==> b[k][i].id < id
  }

  lemma NothingSubmitted(b: Book, o: Order)
    requires o.qty <= 0
    ensures Submit(b, o) == Submission(b, [])
  {
  }

  lemma SubmitMatches(b: Book, o: Order)
    requires o.qty > 0
    ensures Submit(b, o).execs == Match(o, Queue(b, KeyOf(o).Opposite())).execs
  {
  }

  // --------------------------------------------------- operations keep it all

  ghost predicate ElsewhereDiffer(b: Book, k: Key, queue: seq<Order>) {
    forall i, k', j :: 0 <= i < |queue| && k' in b && k' != k && 0 <= j < |b[k']| ==> queue[i].id != b[k'][j].id
  }

  lemma PutKeepsUniqueIds(b: Book, k: Key, queue: seq<Order>)
    requires UniqueIds(b) && Increasing(queue) && ElsewhereDiffer(b, k, queue)
    ensures UniqueIds(Put(b, k, queue))
  {
    var p: Book := Put(b, k, queue);
    forall k1, k2, i, j |
      k1 in p && k2 in p && 0 <= i < |p[k1]| && 0 <= j < |p[k2]| && p[k1][i].id == p[k2][j].id
      ensures k1 == k2 && i == j
    {
      if k1 != k && k2 != k {
        assert p[k1] == b[k1] && p[k2] == b[k2];
      }
    }
  }

  lemma PutKeepsFiled(b: Book, k: Key, queue: seq<Order>)
    requires Filed(b) && NeverCrossed(b)
    requires FiledUnder(queue, k) && Positive(queue) && Increasing(queue)
    requires queue != [] ==> k.Opposite() !in b
    ensures Filed(Put(b, k, queue)) && NeverCrossed(Put(b, k, queue))
  {
    var p := Put(b, k, queue);
    assert forall k' :: k' in p ==> p[k'] == if k' == k then queue else b[k'];
    assert k.Opposite().Opposite() == k;
  }

  lemma PutKeepsInv(b: Book, k: Key, queue: seq<Order>)
    requires Inv(b)
    requires FiledUnder(queue, k) && Positive(queue) && Increasing(queue)
    requires queue != [] ==> k.Opposite() !in b
    requires ElsewhereDiffer(b, k, queue)
    ensures Inv(Put(b, k, queue))
  {
    PutKeepsFiled(b, k, queue);
    PutKeepsUniqueIds(b, k, queue);
  }

  lemma MatchKeepsQueue(o: Order, queue: seq<Order>)
    requires o.qty > 0 && Positive(queue) && Increasing(queue)
    ensures var q := Match(o, queue).queue;
            && Positive(q) && Increasing(q) && |q| <= |queue|
            && forall j :: 0 <= j < |q| ==>
                 q[j] == queue[|queue| - |q| + j].(qty := q[j].qty) && q[j].qty <= queue[|queue| - |q| + j].qty
  {
    RestClosedForm(o, queue);
    var q := Match(o, queue).queue;
    var d := |queue| - |q|;
    forall j | 1 <= j < |q|
      ensures q[j] == queue[d + j]
    {
      assert q[j] == q[1..][j - 1] == queue[d + 1..][j - 1];
    }
  }

  /** A remainder rests only after the opposite queue ran dry. */
  lemma RemainderMeansDry(o: Order, queue: seq<Order>)
    requires o.qty > 0 && Positive(queue) && Match(o, queue).left > 0
    ensures Match(o, queue).queue == []
  {
    RestClosedForm(o, queue);
    var q := Match(o, queue).queue;
    if q != [] {
      assert Positive(q) by {
        assert forall j :: 1 <= j < |q| ==> q[j] == q[1..][j - 1];
      }
      TotalOfPositive(q);
    }
  }

  /** The book after a submission, by the state of the two levels it concerns. */
  lemma SubmitByLevel(b: Book, o: Order)
    requires Inv(b) && o.qty > 0
    ensures var own, opp := KeyOf(o), KeyOf(o).Opposite();
            var m := Match(o, Queue(b, opp));
            Submit(b, o).book ==
              if opp !in b then b[own := Queue(b, own) + [o]]
              else if m.left > 0 then (b - {opp})[own := [o.(qty := m.left)]]
              else Put(b, opp, m.queue)
    ensures KeyOf(o).Opposite() in b ==> KeyOf(o) !in b
    ensures KeyOf(o).Opposite() !in b ==> Submit(b, o).execs == []
  {
    var own, opp := KeyOf(o), KeyOf(o).Opposite();
    assert opp.Opposite() == own && own != opp;
    var m := Match(o, Queue(b, opp));
    if opp !in b {
      assert b - {opp} == b;
      assert o.(qty := o.qty) == o;
    } else if m.left > 0 {
      RemainderMeansDry(o, b[opp]);
      assert [] + [o.(qty := m.left)] == [o.(qty := m.left)];
    }
  }

  lemma AppendKeepsInv(b: Book, o: Order)
    requires Inv(b) && Fresh(b, o.id) && o.qty > 0 && KeyOf(o).Opposite() !in b
    ensures Inv(b[KeyOf(o) := Queue(b, KeyOf(o)) + [o]])
  {
    var own := KeyOf(o);
    var queue := Queue(b, own) + [o];
    assert ElsewhereDiffer(b, own, queue);
    PutKeepsInv(b, own, queue);
  }

  lemma RemainderKeepsInv(b: Book, o: Order, left: int)
    requires Inv(b) && Fresh(b, o.id) && left > 0 && KeyOf(o) !in b
    ensures Inv((b - {KeyOf(o).Opposite()})[KeyOf(o) := [o.(qty := left)]])
  {
    var own, opp := KeyOf(o), KeyOf(o).Opposite();
    PutKeepsInv(b, opp, []);
    PutKeepsInv(b - {opp}, own, [o.(qty := left)]);
  }

  lemma MatchedKeepsInv(b: Book, o: Order)
    requires Inv(b) && o.qty > 0 && KeyOf(o).Opposite() in b && KeyOf(o) !in b
    ensures Inv(Put(b, KeyOf(o).Opposite(), Match(o, b[KeyOf(o).Opposite()]).queue))
  {
    var own, opp := KeyOf(o), KeyOf(o).Opposite();
    var queue := Match(o, b[opp]).queue;
    assert opp.Opposite() == own;
    MatchKeepsQueue(o, b[opp]);
    assert ElsewhereDiffer(b, opp, queue);
    PutKeepsInv(b, opp, queue);
  }

  lemma SubmitKeepsInv(b: Book, o: Order)
    requires Inv(b) && Fresh(b, o.id)
    ensures Inv(Submit(b, o).book)
  {
    hide Inv, Match, Fresh, Submit;
    if o.qty > 0 {
      SubmitByLevel(b, o);
      var opp := KeyOf(o).Opposite();
      if opp !in b {
        AppendKeepsInv(b, o);
      } else if Match(o, b[opp]).left > 0 {
        RemainderKeepsInv(b, o, Match(o, b[opp]).left);
      } else {
        MatchedKeepsInv(b, o);
      }
    } else {
      NothingSubmitted(b, o);
    }
  }

  /** A queue's front may stay in front of some of the others. */
  lemma PrependIncreasing(queue: seq<Order>, some: seq<Order>)
    requires queue != [] && Increasing(queue)
    requires (forall x :: x in some ==> x in queue[1..]) && (Increasing(queue[1..]) ==> Increasing(some))
    ensures Increasing(some) && Increasing([queue[0]] + some)
  {
    forall j | 0 <= j < |some|
      ensures queue[0].id < some[j].id
    {
      assert some[j] in queue[1..];
    }
  }

  /** What `Without` keeps: in order, exactly the orders of another id. */
  lemma {:induction false} WithoutFilters(queue: seq<Order>, id: int)
    ensures forall x :: x in Without(queue, id) <==> x in queue && x.id != id
    ensures Increasing(queue) ==> Increasing(Without(queue, id))
  {
    if queue == [] {
    } else {
      WithoutFilters(queue[1..], id);
      assert queue == [queue[0]] + queue[1..];
      if Increasing(queue) {
        PrependIncreasing(queue, Without(queue[1..], id));
      }
    }
  }

  lemma {:induction false} WithoutNothing(queue: seq<Order>, id: int)
    requires forall i :: 0 <= i < |queue| ==> queue[i].id != id
    ensures Without(queue, id) == queue
  {
    if queue == [] {
    } else {
      WithoutNothing(queue[1..], id);
    }
  }

  function Cut(queue: seq<Order>, i: nat): seq<Order>
    requires i < |queue|
  {
    queue[..i] + queue[i + 1..]
  }

  lemma CutTail(queue: seq<Order>, i: nat)
    requires 0 < i < |queue|
    ensures Cut(queue, i) == [queue[0]] + Cut(queue[1..], i - 1)
  {
  }

  /** Deleting the one order with an id is cutting its position out of the queue. */
  lemma {:induction false} WithoutAt(queue: seq<Order>, i: nat)
    requires Increasing(queue) && i < |queue|
    ensures Without(queue, queue[i].id) == Cut(queue, i)
    decreases |queue|
  {
    if i == 0 {
      WithoutNothing(queue[1..], queue[0].id);
      assert Cut(queue, 0) == queue[1..];
    } else {
      WithoutAt(queue[1..], i - 1);
      CutTail(queue, i);
      hide Cut;
      assert queue[0].id != queue[i].id && queue[1..][i - 1] == queue[i];
    }
  }

  lemma CutIsFiled(queue: seq<Order>, k: Key, i: nat)
    requires FiledUnder(queue, k) && Positive(queue) && Increasing(queue) && i < |queue|
    ensures FiledUnder(Cut(queue, i), k) && Positive(Cut(queue, i)) && Increasing(Cut(queue, i))
    ensures forall j :: 0 <= j < |Cut(queue, i)| ==> Cut(queue, i)[j] == queue[if j < i then j else j + 1]
  {
    assert forall j :: 0 <= j < |Cut(queue, i)| ==> Cut(queue, i)[j] == queue[if j < i then j else j + 1];
  }

  lemma CutDiffersElsewhere(b: Book, k: Key, i: nat)
    requires UniqueIds(b) && k in b && i < |b[k]|
    ensures ElsewhereDiffer(b, k, Cut(b[k], i))
  {
    var queue := Cut(b[k], i);
    forall x, k', j | 0 <= x < |queue| && k' in b && k' != k && 0 <= j < |b[k']|
      ensures queue[x].id != b[k'][j].id
    {
      var y := if x < i then x else x + 1;
      assert queue[x] == b[k][y];
    }
  }

  lemma OtherQueuesKeep(b: Book, k: Key, i: nat, k': Key)
    requires UniqueIds(b) && k in b && i < |b[k]| && k' in b && k' != k
    ensures Without(b[k'], b[k][i].id) == b[k']
  {
    forall j | 0 <= j < |b[k']|
      ensures b[k'][j].id != b[k][i].id
    {
    }
    WithoutNothing(b[k'], b[k][i].id);
  }

  lemma DeleteIsPut(b: Book, k: Key, id: int)
    requires k in b && (forall k' :: k' in b ==> b[k'] != [])
    requires forall k' :: k' in b && k' != k ==> Without(b[k'], id) == b[k']
    ensures Delete(b, id) == Put(b, k, Without(b[k], id))
  {
    var d, p := Delete(b, id), Put(b, k, Without(b[k], id));
    assert d.Keys == p.Keys;
  }

  /** A cancel touches one level only. */
  lemma DeleteByLevel(b: Book, k: Key, i: nat)
    requires Inv(b) && k in b && i < |b[k]|
    ensures Delete(b, b[k][i].id) == Put(b, k, Cut(b[k], i))
  {
    var id := b[k][i].id;
    forall k' | k' in b && k' != k
      ensures Without(b[k'], id) == b[k']
    {
      OtherQueuesKeep(b, k, i, k');
    }
    WithoutAt(b[k], i);
    DeleteIsPut(b, k, id);
  }

  /** Once the order with an id is found, its owner alone decides. */
  lemma OwnerDecides(b: Book, k: Key, i: nat, fd: int, serial: nat)
    requires UniqueIds(b) && k in b && i < |b[k]|
    ensures Owned(b, b[k][i].id, fd, serial) <==> b[k][i].ownerFd == fd && b[k][i].ownerSeq == serial
  {
    if b[k][i].ownerFd == fd && b[k][i].ownerSeq == serial {
      assert Mine(b[k][i], b[k][i].id, fd, serial);
    }
  }

  lemma CancelKeepsInv(b: Book, id: int, fd: int, serial: nat)
    requires Inv(b)
    ensures Inv(Cancel(b, id, fd, serial).1)
  {
    if Owned(b, id, fd, serial) {
      var k, i :| k in b && 0 <= i < |b[k]| && Mine(b[k][i], id, fd, serial);
      CutKeepsInv(b, k, i);
      hide Inv, Delete;
      DeleteByLevel(b, k, i);
    }
  }

  lemma CutKeepsInv(b: Book, k: Key, i: nat)
    requires Inv(b) && k in b && i < |b[k]|
    ensures Inv(Put(b, k, Cut(b[k], i)))
  {
    CutIsFiled(b[k], k, i);
    CutDiffersElsewhere(b, k, i);
    PutKeepsInv(b, k, Cut(b[k], i));
  }

  lemma {:induction false} NotOfFilters(queue: seq<Order>, fd: int)
    ensures forall x :: x in NotOf(queue, fd) <==> x in queue && x.ownerFd != fd
    ensures Increasing(queue) ==> Increasing(NotOf(queue, fd))
  {
    if queue == [] {
    } else {
      NotOfFilters(queue[1..], fd);
      assert queue == [queue[0]] + queue[1..];
      if Increasing(queue) {
        PrependIncreasing(queue, NotOf(queue[1..], fd));
      }
    }
  }

  lemma InvByMembers(b: Book)
    requires Filed(b) && NeverCrossed(b)
    requires forall k, k', x, y :: k in b && k' in b && x in b[k] && y in b[k'] && x.id == y.id ==> x == y
    ensures Inv(b)
  {
    forall k, k', i, j | k in b && k' in b && 0 <= i < |b[k]| && 0 <= j < |b[k']| && b[k][i].id == b[k'][j].id
      ensures k == k' && i == j
    {
      assert b[k][i] in b[k] && b[k'][j] in b[k'];
      assert KeyOf(b[k][i]) == k && KeyOf(b[k'][j]) == k';
    }
  }

  lemma PurgeAt(b: Book, fd: int, k: Key)
    requires Filed(b) && k in b
    ensures forall x :: x in NotOf(b[k], fd) <==> x in b[k] && x.ownerFd != fd
    ensures FiledUnder(NotOf(b[k], fd), k) && Positive(NotOf(b[k], fd)) && Increasing(NotOf(b[k], fd))
  {
    NotOfFilters(b[k], fd);
    var q := NotOf(b[k], fd);
    forall i | 0 <= i < |q|
      ensures KeyOf(q[i]) == k && q[i].qty > 0
    {
      assert q[i] in b[k];
    }
  }

  /** Exactly the orders of that descriptor are gone, and the book is still a book. */
  lemma PurgeIsFilter(b: Book, fd: int)
    requires Inv(b)
    ensures Inv(Purge(b, fd))
    ensures forall k, x :: x in Queue(Purge(b, fd), k) <==> x in Queue(b, k) && x.ownerFd != fd
  {
    var p := Purge(b, fd);
    forall k | k in b
      ensures forall x :: x in NotOf(b[k], fd) <==> x in b[k] && x.ownerFd != fd
      ensures FiledUnder(NotOf(b[k], fd), k) && Positive(NotOf(b[k], fd)) && Increasing(NotOf(b[k], fd))
    {
      PurgeAt(b, fd, k);
    }
    assert Filed(p);
    assert forall k, x :: x in Queue(p, k) <==> x in Queue(b, k) && x.ownerFd != fd;
    PurgeKeepsUnique(b, p);
  }

  lemma PurgeKeepsUnique(b: Book, p: Book)
    requires Inv(b) && Filed(p) && p.Keys <= b.Keys
    requires forall k, x :: k in p && x in p[k] ==> x in b[k]
    ensures Inv(p)
  {
    forall k, k', x: Order, y: Order | k in p && k' in p && x in p[k] && y in p[k'] && x.id == y.id
      ensures x == y
    {
      assert x in b[k] && y in b[k'];
      var i :| 0 <= i < |b[k]| && b[k][i] == x;
      var j :| 0 <= j < |b[k']| && b[k'][j] == y;
      assert b[k][i].id == b[k'][j].id;
    }
    InvByMembers(p);
  }

  /** Filtering one level is a step towards the purged book. */
  lemma PurgeLevelKeepsInv(b: Book, k: Key, fd: int)
    requires Inv(b) && k in b
    ensures Inv(Put(b, k, NotOf(b[k], fd)))
  {
    PurgeAt(b, fd, k);
    var q := NotOf(b[k], fd);
    forall i, k', j | 0 <= i < |q| && k' in b && k' != k && 0 <= j < |b[k']|
      ensures q[i].id != b[k'][j].id
    {
      assert q[i] in b[k];
      var m :| 0 <= m < |b[k]| && b[k][m] == q[i];
      assert b[k][m].id == q[i].id;
    }
    PutKeepsInv(b, k, q);
  }

  lemma {:induction false} NotOfTwice(queue: seq<Order>, fd: int)
    ensures NotOf(NotOf(queue, fd), fd) == NotOf(queue, fd)
  {
    if queue == [] {
    } else {
      NotOfTwice(queue[1..], fd);
      assert ([queue[0]] + NotOf(queue[1..], fd))[1..] == NotOf(queue[1..], fd);
    }
  }

  /** A second purge finds nothing to remove. */
  lemma PurgeTwice(b: Book, fd: int)
    ensures Purge(Purge(b, fd), fd) == Purge(b, fd)
  {
    forall k | k in b
      ensures NotOf(NotOf(b[k], fd), fd) == NotOf(b[k], fd)
    {
      NotOfTwice(b[k], fd);
    }
  }

  // ------------------------------------------------ relations between operations

  /** Cancelling is exact: it succeeds only for the owner, and then exactly that order is gone. */
  lemma CancelIsDeletion(b: Book, id: int, fd: int, serial: nat)
    requires Inv(b)
    ensures var (done, b') := Cancel(b, id, fd, serial);
            && (done ==> !Rests(b', id))
            && (!done ==> b' == b)
            && forall k, x :: (x in Queue(b', k) <==> x in Queue(b, k) && !(done && x.id == id))
  {
    var b': Book := Cancel(b, id, fd, serial).1;
    if Owned(b, id, fd, serial) {
      forall k | k in b
        ensures forall x :: x in Without(b[k], id) <==> x in b[k] && x.id != id
      {
        WithoutFilters(b[k], id);
      }
      forall k: Key, i: int | k in b' && 0 <= i < |b'[k]|
        ensures b'[k][i].id != id
      {
        assert b'[k][i] in Without(b[k], id);
      }
    }
  }

  /** An order that met no counterparty can be withdrawn without a trace. */
  lemma CancelUndoesSubmit(b: Book, o: Order)
    requires Inv(b) && Fresh(b, o.id) && o.qty > 0
    requires Submit(b, o).execs == []
    ensures Cancel(Submit(b, o).book, o.id, o.ownerFd, o.ownerSeq) == (true, b)
  {
    var own := KeyOf(o);
    var b', i := Submit(b, o).book, |Queue(b, own)|;
    assert own.Opposite() !in b;
    SubmitByLevel(b, o);
    SubmitKeepsInv(b, o);
    assert b'[own] == Queue(b, own) + [o];
    assert Mine(b'[own][i], o.id, o.ownerFd, o.ownerSeq);
    DeleteByLevel(b', own, i);
    PutBack(b, own, b'[own]);
    assert Cut(b'[own], i) == Queue(b, own);
  }

  lemma PutBack(b: Book, k: Key, queue: seq<Order>)
    requires k in b ==> b[k] != []
    ensures Put(b[k := queue], k, Queue(b, k)) == b
  {
  }

  ghost predicate SameAt(b: Book, c: Book, k: Key) {
    (k in b <==> k in c) && Queue(b, k) == Queue(c, k)
  }

  predicate Concerns(o: Order, k: Key) {
    k.instrument == o.instrument && k.price == o.price
  }

  /** A submission writes nothing outside the two queues of its instrument and price... */
  lemma SubmitIsLocal(b: Book, o: Order, k: Key)
    requires !Concerns(o, k)
    ensures SameAt(Submit(b, o).book, b, k)
  {
  }

  lemma TwoKeys(o: Order, k: Key)
    ensures Concerns(o, k) <==> k == KeyOf(o) || k == KeyOf(o).Opposite()
  {
  }

  /** ...and what it does there depends on these two queues only. */
  lemma SubmitReadsItsLevel(b: Book, c: Book, o: Order)
    requires SameAt(b, c, KeyOf(o)) && SameAt(b, c, KeyOf(o).Opposite())
    ensures Submit(b, o).execs == Submit(c, o).execs
    ensures forall k :: Concerns(o, k) ==> SameAt(Submit(b, o).book, Submit(c, o).book, k)
  {
    var own, opp := KeyOf(o), KeyOf(o).Opposite();
    if o.qty > 0 {
      var m := Match(o, Queue(b, opp));
      assert Match(o, Queue(c, opp)) == m;
      assert SameAt(Put(b, opp, m.queue), Put(c, opp, m.queue), own);
      assert SameAt(Put(b, opp, m.queue), Put(c, opp, m.queue), opp);
    }
    forall k | Concerns(o, k)
      ensures SameAt(Submit(b, o).book, Submit(c, o).book, k)
    {
      TwoKeys(o, k);
    }
  }

  /** A submission elsewhere in between makes no difference. */
  lemma SubmitIgnoresElsewhere(b: Book, o: Order, p: Order)
    requires o.instrument != p.instrument || o.price != p.price
    ensures Submit(Submit(b, p).book, o).execs == Submit(b, o).execs
    ensures forall k :: Concerns(o, k) ==> SameAt(Submit(Submit(b, p).book, o).book, Submit(b, o).book, k)
  {
    SubmitIsLocal(b, p, KeyOf(o));
    SubmitIsLocal(b, p, KeyOf(o).Opposite());
    SubmitReadsItsLevel(Submit(b, p).book, b, o);
  }

  /** Orders at different levels may arrive in either order: same executions, same book. */
  lemma SubmitsCommute(b: Book, o: Order, p: Order)
    requires o.instrument != p.instrument || o.price != p.price
    ensures Submit(Submit(b, o).book, p).execs == Submit(b, p).execs
    ensures Submit(Submit(b, p).book, o).execs == Submit(b, o).execs
    ensures Submit(Submit(b, o).book, p).book == Submit(Submit(b, p).book, o).book
  {
    SubmitIgnoresElsewhere(b, o, p);
    SubmitIgnoresElsewhere(b, p, o);
    forall k
      ensures SameAt(Submit(Submit(b, o).book, p).book, Submit(Submit(b, p).book, o).book, k)
    {
      if !Concerns(o, k) {
        SubmitIsLocal(Submit(b, p).book, o, k);
        if !Concerns(p, k) {
          SubmitIsLocal(b, o, k);
          SubmitIsLocal(b, p, k);
          SubmitIsLocal(Submit(b, o).book, p, k);
        }
      } else {
        SubmitIsLocal(Submit(b, o).book, p, k);
      }
    }
    SameEverywhere(Submit(Submit(b, o).book, p).book, Submit(Submit(b, p).book, o).book);
  }

  /** Order `id` does not rest at the level of `o`. */
  ghost predicate NotAtLevel(b: Book, o: Order, id: int) {
    forall k, i :: Concerns(o, k) && 0 <= i < |Queue(b, k)| ==> Queue(b, k)[i].id != id
  }

  /** At the level of a submission there are the orders that were there, and the new one. */
  lemma LevelAfterSubmit(b: Book, o: Order, id: int)
    requires Inv(b) && NotAtLevel(b, o, id) && id != o.id
    ensures NotAtLevel(Submit(b, o).book, o, id)
  {
    hide Submit, Match, Increasing, Positive, UniqueIds;
    if o.qty <= 0 {
      NothingSubmitted(b, o);
    } else {
      var own, opp := KeyOf(o), KeyOf(o).Opposite();
      SubmitByLevel(b, o);
      MatchKeepsQueue(o, Queue(b, opp));
      assert Concerns(o, own) && Concerns(o, opp) && own != opp;
      forall k, i | Concerns(o, k) && 0 <= i < |Queue(Submit(b, o).book, k)|
        ensures Queue(Submit(b, o).book, k)[i].id != id
      {
        TwoKeys(o, k);
      }
    }
  }

  lemma DeleteElsewhere(b: Book, o: Order, id: int, k: Key)
    requires NotAtLevel(b, o, id) && Concerns(o, k) && (k in b ==> b[k] != [])
    ensures SameAt(Delete(b, id), b, k)
  {
    if k in b {
      assert Queue(b, k) == b[k];
      WithoutNothing(b[k], id);
    }
  }

  lemma OwnedElsewhere(b: Book, c: Book, o: Order, id: int, fd: int, serial: nat)
    requires NotAtLevel(b, o, id) && (forall k :: !Concerns(o, k) ==> SameAt(b, c, k))
    requires Owned(b, id, fd, serial)
    ensures Owned(c, id, fd, serial)
  {
    var k, i :| k in b && 0 <= i < |b[k]| && Mine(b[k][i], id, fd, serial);
    assert Queue(b, k)[i].id == id;
    assert SameAt(b, c, k);
    assert Mine(c[k][i], id, fd, serial);
  }

  lemma DeleteAndSubmit(b: Book, o: Order, id: int)
    requires Inv(b) && NotAtLevel(b, o, id) && id != o.id && Filed(Submit(b, o).book)
    ensures Submit(Delete(b, id), o).execs == Submit(b, o).execs
    ensures Submit(Delete(b, id), o).book == Delete(Submit(b, o).book, id)
  {
    var c, d := Submit(b, o).book, Delete(b, id);
    LevelAfterSubmit(b, o, id);
    DeleteElsewhere(b, o, id, KeyOf(o));
    DeleteElsewhere(b, o, id, KeyOf(o).Opposite());
    SubmitReadsItsLevel(d, b, o);
    forall k
      ensures SameAt(Submit(d, o).book, Delete(c, id), k)
    {
      if Concerns(o, k) {
        DeleteElsewhere(c, o, id, k);
      } else {
        SubmitIsLocal(b, o, k);
        SubmitIsLocal(d, o, k);
      }
    }
    SameEverywhere(Submit(d, o).book, Delete(c, id));
  }

  /** A submission and a cancel at different levels may come in either order: same answer, executions and book. */
  lemma SubmitAndCancelCommute(b: Book, o: Order, id: int, fd: int, serial: nat)
    requires Inv(b) && Fresh(b, o.id) && NotAtLevel(b, o, id) && id != o.id
    ensures Cancel(Submit(b, o).book, id, fd, serial).0 == Cancel(b, id, fd, serial).0
    ensures Submit(Cancel(b, id, fd, serial).1, o).execs == Submit(b, o).execs
    ensures Submit(Cancel(b, id, fd, serial).1, o).book == Cancel(Submit(b, o).book, id, fd, serial).1
  {
    var c := Submit(b, o).book;
    SubmitKeepsInv(b, o);
    LevelAfterSubmit(b, o, id);
    forall k | !Concerns(o, k)
      ensures SameAt(b, c, k) && SameAt(c, b, k)
    {
      SubmitIsLocal(b, o, k);
    }
    if Owned(b, id, fd, serial) {
      OwnedElsewhere(b, c, o, id, fd, serial);
    }
    if Owned(c, id, fd, serial) {
      OwnedElsewhere(c, b, o, id, fd, serial);
    }
    hide Owned, Submit, Delete;
    DeleteAndSubmit(b, o, id);
  }

  lemma {:induction false} WithoutTwice(queue: seq<Order>, i: int, j: int)
    ensures Without(Without(queue, i), j) == Without(Without(queue, j), i)
  {
    if queue == [] {
    } else {
      var x, rest := [queue[0]], queue[1..];
      WithoutTwice(rest, i, j);
      assert (x + Without(rest, i))[1..] == Without(rest, i) && (x + Without(rest, j))[1..] == Without(rest, j);
    }
  }

  lemma DeleteTwice(b: Book, i: int, j: int)
    ensures Delete(Delete(b, i), j) == Delete(Delete(b, j), i)
  {
    forall k | k in b
      ensures Without(Without(b[k], i), j) == Without(Without(b[k], j), i)
    {
      WithoutTwice(b[k], i, j);
    }
  }

  lemma OthersStayOwned(b: Book, i: int, j: int, fd: int, serial: nat)
    requires i != j
    ensures Owned(Delete(b, i), j, fd, serial) <==> Owned(b, j, fd, serial)
  {
    var d := Delete(b, i);
    if k, x :| k in b && 0 <= x < |b[k]| && Mine(b[k][x], j, fd, serial) {
      WithoutFilters(b[k], i);
      assert b[k][x] in Without(b[k], i);
      var y :| 0 <= y < |d[k]| && d[k][y] == b[k][x];
      assert Mine(d[k][y], j, fd, serial);
    }
    if k, y :| k in d && 0 <= y < |d[k]| && Mine(d[k][y], j, fd, serial) {
      WithoutFilters(b[k], i);
      assert d[k][y] in b[k];
      var x :| 0 <= x < |b[k]| && b[k][x] == d[k][y];
      assert Mine(b[k][x], j, fd, serial);
    }
  }

  /** Cancels of two orders, even at one level, may come in either order. */
  lemma CancelsCommute(b: Book, i: int, fdI: int, serialI: nat, j: int, fdJ: int, serialJ: nat)
    requires i != j
    ensures Cancel(Cancel(b, i, fdI, serialI).1, j, fdJ, serialJ).0 == Cancel(b, j, fdJ, serialJ).0
    ensures Cancel(Cancel(b, j, fdJ, serialJ).1, i, fdI, serialI).0 == Cancel(b, i, fdI, serialI).0
    ensures Cancel(Cancel(b, i, fdI, serialI).1, j, fdJ, serialJ).1 ==
              Cancel(Cancel(b, j, fdJ, serialJ).1, i, fdI, serialI).1
  {
    hide Owned, Delete;
    OthersStayOwned(b, i, j, fdJ, serialJ);
    OthersStayOwned(b, j, i, fdI, serialI);
    DeleteTwice(b, i, j);
  }

  lemma SameEverywhere(b: Book, c: Book)
    requires forall k :: SameAt(b, c, k)
    ensures b == c
  {
    assert forall k :: SameAt(b, c, k) ==> (k in b <==> k in c) && (k in b ==> b[k] == c[k]);
  }

  lemma QueuesDecide(b: Book, c: Book)
    requires forall k :: k in b ==> b[k] != []
    requires forall k :: k in c ==> c[k] != []
    requires forall k :: Queue(b, k) == Queue(c, k)
    ensures b == c
  {
    forall k
      ensures SameAt(b, c, k)
    {
      assert Queue(b, k) == Queue(c, k);
    }
    SameEverywhere(b, c);
  }

  // --------------------------------------------------- accounting for removals

  /** The ids a filter drops, in queue order. */
  function IdsOf(queue: seq<Order>, fd: int): seq<int> {
    if queue == [] then []
    else if queue[0].ownerFd == fd then [queue[0].id] + IdsOf(queue[1..], fd)
    else IdsOf(queue[1..], fd)
  }

  predicate Distinct(ids: seq<int>) {
    forall i, j :: 0 <= i < j < |ids| ==> ids[i] != ids[j]
  }

  predicate Among(queue: seq<Order>, id: int) {
    exists i :: 0 <= i < |queue| && queue[i].id == id
  }

  lemma {:induction false} IdsOfQueue(queue: seq<Order>, fd: int)
    requires Increasing(queue)
    ensures forall id :: id in IdsOf(queue, fd) <==> Among(queue, id) && !Among(NotOf(queue, fd), id)
    ensures Distinct(IdsOf(queue, fd))
    ensures forall id :: Among(NotOf(queue, fd), id) ==> Among(queue, id)
  {
    if queue == [] {
    } else {
      var rest := queue[1..];
      IdsOfQueue(rest, fd);
      forall id
        ensures Among(queue, id) <==> queue[0].id == id || Among(rest, id)
      {
        AmongCons(queue[0], rest, id);
        assert [queue[0]] + rest == queue;
      }
      forall id
        ensures Among([queue[0]] + NotOf(rest, fd), id) <==> queue[0].id == id || Among(NotOf(rest, fd), id)
      {
        AmongCons(queue[0], NotOf(rest, fd), id);
      }
      assert !Among(rest, queue[0].id);
    }
  }

  lemma AmongCons(o: Order, rest: seq<Order>, id: int)
    ensures Among([o] + rest, id) <==> o.id == id || Among(rest, id)
  {
    var queue := [o] + rest;
    if i :| 0 <= i < |rest| && rest[i].id == id {
      assert queue[i + 1].id == id;
    }
    if o.id == id {
      assert queue[0].id == id;
    }
  }

  lemma RestsByLevel(b: Book, k: Key, id: int)
    ensures Rests(b, id) <==> Among(Queue(b, k), id) || Rests(b - {k}, id)
  {
    if i :| 0 <= i < |Queue(b, k)| && Queue(b, k)[i].id == id {
      assert k in b && b[k][i].id == id;
    }
    var c: Book := b - {k};
    if k', i :| k' in c && 0 <= i < |c[k']| && c[k'][i].id == id {
      assert b[k'][i].id == id;
    }
    if k', i :| k' in b && 0 <= i < |b[k']| && b[k'][i].id == id {
      assert k' != k ==> c[k'][i].id == id;
    }
  }

  /** An id rests at one level only. */
  lemma RestsOnce(b: Book, k: Key, id: int)
    requires Inv(b) && Among(Queue(b, k), id)
    ensures !Rests(b - {k}, id)
  {
    var c: Book := b - {k};
    var i :| 0 <= i < |Queue(b, k)| && Queue(b, k)[i].id == id;
    forall k', j | k' in c && 0 <= j < |c[k']|
      ensures c[k'][j].id != id
    {
      assert b[k'][j] == c[k'][j] && b[k][i].id == id;
    }
  }

  /** `removed` lists, once each, the orders that rested in `before` and no longer do in `now`. */
  ghost predicate Accounts(before: Book, now: Book, removed: seq<int>) {
    && Distinct(removed)
    && (forall id :: Rests(now, id) ==> Rests(before, id))
    && (forall id :: id in removed <==> Rests(before, id) && !Rests(now, id))
  }

  /** The filter has passed over the levels in `done`. */
  ghost predicate Purging(before: Book, now: Book, done: set<Key>, removed: seq<int>, fd: int) {
    && Inv(before) && Inv(now) && Accounts(before, now, removed)
    && forall k :: Queue(now, k) == if k in done then NotOf(Queue(before, k), fd) else Queue(before, k)
  }

  lemma AccountsAdd(before: Book, now: Book, next: Book, removed: seq<int>, ids: seq<int>)
    requires Accounts(before, now, removed) && Distinct(ids)
    requires forall id :: Rests(next, id) <==> Rests(now, id) && id !in ids
    requires forall id :: id in ids ==> Rests(now, id)
    ensures Accounts(before, next, removed + ids)
  {
    forall i, j | 0 <= i < |removed| && 0 <= j < |ids|
      ensures removed[i] != ids[j]
    {
      assert removed[i] in removed && ids[j] in ids;
    }
  }

  lemma AccountsStep(before: Book, now: Book, k: Key, fd: int, removed: seq<int>)
    requires Inv(now) && Accounts(before, now, removed)
    ensures Accounts(before, Put(now, k, NotOf(Queue(now, k), fd)), removed + IdsOf(Queue(now, k), fd))
  {
    var q, ids := Queue(now, k), IdsOf(Queue(now, k), fd);
    var next := Put(now, k, NotOf(q, fd));
    IdsOfQueue(q, fd);
    forall id
      ensures Rests(next, id) <==> Rests(now, id) && id !in ids
      ensures id in ids ==> Rests(now, id)
    {
      RestsByLevel(now, k, id);
      RestsByLevel(next, k, id);
      assert next - {k} == now - {k};
      if Among(q, id) {
        RestsOnce(now, k, id);
      }
      assert Queue(next, k) == NotOf(q, fd);
    }
    AccountsAdd(before, now, next, removed, ids);
  }

  lemma PurgeStep(before: Book, now: Book, done: set<Key>, removed: seq<int>, fd: int, k: Key)
    requires Purging(before, now, done, removed, fd) && k !in done
    ensures Purging(before, Put(now, k, NotOf(Queue(now, k), fd)), done + {k}, removed + IdsOf(Queue(now, k), fd), fd)
  {
    AccountsStep(before, now, k, fd, removed);
    if k in now {
      PurgeLevelKeepsInv(now, k, fd);
    } else {
      assert now - {k} == now;
    }
    var next := Put(now, k, NotOf(Queue(now, k), fd));
    forall k'
      ensures Queue(next, k') == if k' in done + {k} then NotOf(Queue(before, k'), fd) else Queue(before, k')
    {
      assert Queue(now, k') == if k' in done then NotOf(Queue(before, k'), fd) else Queue(before, k');
    }
  }

  lemma PurgeBegins(b: Book, fd: int)
    requires Inv(b)
    ensures Purging(b, b, {}, [], fd)
  {
  }

  lemma PurgeNotYet(before: Book, now: Book, done: set<Key>, removed: seq<int>, fd: int, k: Key)
    requires Purging(before, now, done, removed, fd) && k !in done && k in before
    ensures k in now
  {
    assert Queue(now, k) == Queue(before, k);
  }

  lemma PurgeDone(before: Book, now: Book, done: set<Key>, removed: seq<int>, fd: int)
    requires Inv(before) && Purging(before, now, done, removed, fd) && before.Keys <= done
    ensures now == Purge(before, fd) && Inv(now) && Accounts(before, now, removed)
  {
    forall k
      ensures Queue(now, k) == Queue(Purge(before, fd), k)
    {
      assert Queue(now, k) == if k in done then NotOf(Queue(before, k), fd) else Queue(before, k);
    }
    QueuesDecide(now, Purge(before, fd));
  }
}
