/** The order book as the program stores it, mutated in place, tied to its value in `Books`. */
module OrderBooks {
  import opened Matching
  import opened Wrappers
  import Books

  datatype InstrumentBook = InstrumentBook(buys: map<int, seq<Order>>, sells: map<int, seq<Order>>) {
    function Of(side: Side): map<int, seq<Order>> {
      if side == Buy then buys else sells
    }

    function With(side: Side, levels: map<int, seq<Order>>): InstrumentBook {
      if side == Buy then this.(buys := levels) else this.(sells := levels)
    }
  }

  type Nested = map<string, InstrumentBook>

  predicate HasLevel(books: Nested, k: Key) {
    k.instrument in books && k.price in books[k.instrument].Of(k.side)
  }

  function Level(books: Nested, k: Key): seq<Order> {
    if HasLevel(books, k) then books[k.instrument].Of(k.side)[k.price] else []
  }

  /** The nested maps hold exactly the queues of `b`; an instrument without orders may have an empty entry. */
  ghost predicate Represents(books: Nested, b: Books.Book) {
    forall k: Key :: (HasLevel(books, k) <==> k in b) && Level(books, k) == Books.Queue(b, k)
  }

  function SetLevels(books: Nested, instrument: string, side: Side, levels: map<int, seq<Order>>): Nested
    requires instrument in books
  {
    books[instrument := books[instrument].With(side, levels)]
  }

  lemma FilterDrops(queue: seq<Order>, i: nat, fd: int)
    requires i < |queue| && queue[i].ownerFd == fd
    ensures var cut := queue[..i] + queue[i + 1..];
            && cut[..i] == queue[..i]
            && Books.NotOf(queue[i..], fd) == Books.NotOf(cut[i..], fd)
            && Books.IdsOf(queue[i..], fd) == [queue[i].id] + Books.IdsOf(cut[i..], fd)
  {
    assert queue[i..][1..] == (queue[..i] + queue[i + 1..])[i..];
  }

  lemma FilterKeeps(queue: seq<Order>, i: nat, fd: int)
    requires i < |queue| && queue[i].ownerFd != fd
    ensures Books.NotOf(queue[i..], fd) == [queue[i]] + Books.NotOf(queue[i + 1..], fd)
    ensures Books.IdsOf(queue[i..], fd) == Books.IdsOf(queue[i + 1..], fd)
  {
    assert queue[i..][1..] == queue[i + 1..];
  }

  lemma NothingToFilter(fd: int)
    ensures Books.NotOf([], fd) == [] && Books.IdsOf([], fd) == []
  {
  }

  lemma LevelIsQueue(books: Nested, b: Books.Book, k: Key)
    requires Represents(books, b)
    ensures (HasLevel(books, k) <==> k in b) && Level(books, k) == Books.Queue(b, k)
  {
  }

  lemma BookIsPositive(b: Books.Book)
    requires Books.Inv(b)
    ensures forall k :: k in b ==> Positive(b[k])
  {
  }

  /** Writing one level of the nested maps is writing that queue of the book. */
  lemma SetLevelRepresents(books: Nested, b: Books.Book, k: Key, queue: seq<Order>)
    requires Represents(books, b) && k.instrument in books
    ensures var levels := books[k.instrument].Of(k.side);
            Represents(SetLevels(books, k.instrument, k.side,
                                 if queue == [] then levels - {k.price} else levels[k.price := queue]),
                       Books.Put(b, k, queue))
  {
    var levels := books[k.instrument].Of(k.side);
    var levels' := if queue == [] then levels - {k.price} else levels[k.price := queue];
    var books' := SetLevels(books, k.instrument, k.side, levels');
    forall k': Key
      ensures HasLevel(books', k') <==> k' in Books.Put(b, k, queue)
      ensures Level(books', k') == Books.Queue(Books.Put(b, k, queue), k')
    {
      assert (HasLevel(books, k') <==> k' in b) && Level(books, k') == Books.Queue(b, k');
    }
  }

  lemma EmptyEntryRepresents(books: Nested, b: Books.Book, instrument: string)
    requires Represents(books, b) && instrument !in books
    ensures Represents(books[instrument := InstrumentBook(map[], map[])], b)
  {
    var books' := books[instrument := InstrumentBook(map[], map[])];
    forall k: Key
      ensures (HasLevel(books', k) <==> k in b) && Level(books', k) == Books.Queue(b, k)
    {
      assert (HasLevel(books, k) <==> k in b) && Level(books, k) == Books.Queue(b, k);
    }
  }

  function FillsOf(execs: seq<Exec>): seq<Fill> {
    if execs == [] then [] else FillsOf(execs[..|execs| - 1]) + [execs[|execs| - 1].fill]
  }

  /** With `execs` made so far, matching `o` against `queue` is all that `whole` still asks for. */
  ghost predicate Pending(whole: Matched, o: Order, queue: seq<Order>, execs: seq<Exec>) {
    whole == Matched(Match(o, queue).left, Match(o, queue).queue, execs + Match(o, queue).execs)
  }

  lemma NothingPending(whole: Matched, o: Order, queue: seq<Order>, execs: seq<Exec>)
    requires Pending(whole, o, queue, execs) && (o.qty <= 0 || queue == [])
    ensures whole == Matched(o.qty, queue, execs)
  {
  }

  /** One turn of the matching loop keeps it so. */
  lemma OneTurn(whole: Matched, o: Order, queue: seq<Order>, execs: seq<Exec>, o': Order, queue': seq<Order>, e: Exec)
    requires Pending(whole, o, queue, execs) && o.qty > 0 && queue != [] && Positive(queue)
    requires e == Execute(o, queue[0], Min(o.qty, queue[0].qty))
    requires var traded := Min(o.qty, queue[0].qty);
             var resting := queue[0].(qty := queue[0].qty - traded);
             && o' == o.(qty := o.qty - traded)
             && queue' == if resting.qty == 0 then queue[1..] else [resting] + queue[1..]
    ensures o'.qty >= 0 && Positive(queue') && Pending(whole, o', queue', execs + [e])
  {
    var traded := Min(o.qty, queue[0].qty);
    if queue[0].qty == traded {
      assert queue' == queue[1..];
      assert forall i :: 0 <= i < |queue'| ==> queue'[i] == queue[i + 1];
    } else {
      assert o'.qty == 0;
      assert forall i :: 1 <= i < |queue'| ==> queue'[i] == queue[i];
    }
    assert execs + ([e] + Match(o', queue').execs) == (execs + [e]) + Match(o', queue').execs;
  }

  predicate NoneAt(b: Books.Book, k: Key, id: int) {
    k in b ==> forall i :: 0 <= i < |b[k]| ==> b[k][i].id != id
  }

  /** The order with the id was found: what the cancel answers, and does. */
  lemma Found(b: Books.Book, k: Key, i: nat, fd: int, serial: nat)
    requires Books.Inv(b) && k in b && i < |b[k]|
    ensures Books.Owned(b, b[k][i].id, fd, serial) <==> b[k][i].ownerFd == fd && b[k][i].ownerSeq == serial
    ensures Books.Delete(b, b[k][i].id) == Books.Put(b, k, Books.Cut(b[k], i))
    ensures Books.Inv(Books.Delete(b, b[k][i].id))
  {
    Books.OwnerDecides(b, k, i, fd, serial);
    Books.OwnerDecides(b, k, i, b[k][i].ownerFd, b[k][i].ownerSeq);
    Books.DeleteByLevel(b, k, i);
    Books.CancelKeepsInv(b, b[k][i].id, b[k][i].ownerFd, b[k][i].ownerSeq);
  }

  class OrderBook {
    var nextId: nat
    var books: Nested
    ghost var book: Books.Book

    ghost predicate Valid()
      reads this
    {
      Represents(books, book) && Books.Inv(book)
    }

    constructor ()
      ensures Valid() && book == map[] && nextId == 0
    {
      nextId, books, book := 0, map[], map[];
    }

    method NextId() returns (id: nat)
      modifies this`nextId
      ensures id == old(nextId) && nextId == old(nextId) + 1
    {
      id := nextId;
      nextId := nextId + 1;
    }

    /** `books_[instrument]`: creates the entry when there is none. */
    method Touch(instrument: string)
      requires Represents(books, book)
      modifies this`books
      ensures Represents(books, book) && instrument in books
    {
      if instrument !in books {
        EmptyEntryRepresents(books, book, instrument);
        books := books[instrument := InstrumentBook(map[], map[])];
      }
    }

    /** Writes one level back, and erases it when its queue ran dry. */
    method Store(k: Key, queue: seq<Order>)
      requires Represents(books, book) && k.instrument in books
      modifies this`books, this`book
      ensures Represents(books, book) && book == Books.Put(old(book), k, queue) && books.Keys == old(books.Keys)
    {
      SetLevelRepresents(books, book, k, queue);
      var levels := books[k.instrument].Of(k.side);
      levels := if queue == [] then levels - {k.price} else levels[k.price := queue];
      books := SetLevels(books, k.instrument, k.side, levels);
      book := Books.Put(book, k, queue);
    }

    /** The matching loop: consumes resting orders oldest first until the order is filled or the queue is dry. */
    method Consume(incoming: Order, level: seq<Order>)
      returns (o: Order, queue: seq<Order>, fills: seq<Fill>, ghost execs: seq<Exec>)
      requires incoming.qty > 0 && Positive(level)
      ensures o == incoming.(qty := o.qty)
      ensures Matched(o.qty, queue, execs) == Match(incoming, level) && fills == FillsOf(execs)
    {
      o, queue, fills, execs := incoming, level, [], [];
      ghost var whole := Match(incoming, level);
      while o.qty > 0 && queue != []
        invariant o == incoming.(qty := o.qty) && o.qty >= 0 && Positive(queue)
        invariant Pending(whole, o, queue, execs)
        invariant fills == FillsOf(execs)
        decreases o.qty
      {
        var resting := queue[0];
        var traded := Min(o.qty, resting.qty);
        var f := if o.side == Buy
          then Fill(o.instrument, traded, o.price, o.ownerFd, resting.ownerFd, o.ownerSeq, resting.ownerSeq)
          else Fill(o.instrument, traded, o.price, resting.ownerFd, o.ownerFd, resting.ownerSeq, o.ownerSeq);
        ghost var o0, queue0, execs0 := o, queue, execs;
        fills := fills + [f];
        execs := execs + [Execute(o, resting, traded)];
        o := o.(qty := o.qty - traded);
        resting := resting.(qty := resting.qty - traded);
        queue := if resting.qty == 0 then queue[1..] else [resting] + queue[1..];
        OneTurn(whole, o0, queue0, execs0, o, queue, Execute(o0, queue0[0], traded));
        assert execs[..|execs| - 1] == execs0;
      }
      NothingPending(whole, o, queue, execs);
    }

    method Submit(incoming: Order) returns (fills: seq<Fill>, ghost execs: seq<Exec>)
      requires Valid()
      requires incoming.qty > 0 ==> Books.Fresh(book, incoming.id)
      modifies this`books, this`book
      ensures Valid()
      ensures book == Books.Submit(old(book), incoming).book
      ensures execs == Books.Submit(old(book), incoming).execs && fills == FillsOf(execs)
    {
      fills, execs := [], [];
      if incoming.qty <= 0 {
        return;
      }
      Books.SubmitKeepsInv(book, incoming);
      ghost var b := book;
      var o := incoming;
      var own, opposite := KeyOf(o), KeyOf(o).Opposite();
      Touch(o.instrument);
      LevelIsQueue(books, book, opposite);
      BookIsPositive(book);
      hide Represents, Books.Inv, Match;
      if HasLevel(books, opposite) {
        var queue := Level(books, opposite);
        o, queue, fills, execs := Consume(o, queue);
        Store(opposite, queue);
      } else {
        assert Books.Queue(b, opposite) == [];
        assert Books.Put(b, opposite, []) == b;
      }
      if o.qty > 0 {
        LevelIsQueue(books, book, own);
        Store(own, Level(books, own) + [o]);
      }
    }

    /** Looks through the levels of one side; once the id turns up, the cancel is settled. */
    method CancelInSide(instrument: string, side: Side, id: int, fd: int, serial: nat)
      returns (settled: bool, done: bool)
      requires Valid() && instrument in books
      modifies this`books, this`book
      ensures Valid()
      ensures settled ==> (done, book) == Books.Cancel(old(book), id, fd, serial)
      ensures !settled ==> books == old(books) && book == old(book)
      ensures !settled ==> forall price :: NoneAt(book, Key(side, instrument, price), id)
    {
      var levels := books[instrument].Of(side);
      var prices := levels.Keys;
      while prices != {}
        invariant books == old(books) && book == old(book) && prices <= levels.Keys
        invariant forall p :: p in prices || NoneAt(book, Key(side, instrument, p), id)
        decreases prices
      {
        var price := Pick(prices);
        var k := Key(side, instrument, price);
        var queue := levels[price];
        assert HasLevel(books, k) && queue == Level(books, k) == book[k];
        var i := 0;
        while i < |queue|
          invariant 0 <= i <= |queue|
          invariant forall j :: 0 <= j < i ==> queue[j].id != id
        {
          if queue[i].id == id {
            Found(book, k, i, fd, serial);
            if queue[i].ownerFd != fd {
              return true, false;
            }
            if queue[i].ownerSeq != serial {
              return true, false;
            }
            Store(k, Books.Cut(queue, i));
            return true, true;
          }
          i := i + 1;
        }
        prices := prices - {price};
      }
      return false, false;
    }

    /** The maps are visited in an arbitrary order, as nothing depends on it. */
    method Cancel(id: int, fd: int, serial: nat) returns (done: bool)
      requires Valid()
      modifies this`books, this`book
      ensures Valid()
      ensures (done, book) == Books.Cancel(old(book), id, fd, serial)
    {
      var instruments := books.Keys;
      while instruments != {}
        invariant books == old(books) && book == old(book) && instruments <= books.Keys
        invariant forall k: Key :: k.instrument !in instruments ==> NoneAt(book, k, id)
        decreases instruments
      {
        var instrument := Pick(instruments);
        var settled;
        settled, done := CancelInSide(instrument, Buy, id, fd, serial);
        if settled {
          return;
        }
        settled, done := CancelInSide(instrument, Sell, id, fd, serial);
        if settled {
          return;
        }
        forall k: Key | k.instrument == instrument
          ensures NoneAt(book, k, id)
        {
          assert k == Key(k.side, instrument, k.price);
        }
        instruments := instruments - {instrument};
      }
      assert forall k: Key :: NoneAt(book, k, id);
      return false;
    }

    /** Filters one queue in place; erasing an order moves its successor under the index. */
    method FilterQueue(level: seq<Order>, fd: int) returns (queue: seq<Order>, removed: seq<int>)
      ensures queue == Books.NotOf(level, fd) && removed == Books.IdsOf(level, fd)
    {
      hide Books.NotOf, Books.IdsOf;
      queue, removed := level, [];
      var i := 0;
      assert queue[..i] == [] && queue[i..] == queue;
      while i < |queue|
        invariant 0 <= i <= |queue|
        invariant queue[..i] + Books.NotOf(queue[i..], fd) == Books.NotOf(level, fd)
        invariant removed + Books.IdsOf(queue[i..], fd) == Books.IdsOf(level, fd)
        decreases |queue| - i
      {
        if queue[i].ownerFd == fd {
          FilterDrops(queue, i, fd);
          removed := removed + [queue[i].id];
          queue := queue[..i] + queue[i + 1..];
        } else {
          FilterKeeps(queue, i, fd);
          assert queue[..i + 1] == queue[..i] + [queue[i]];
          i := i + 1;
        }
      }
      NothingToFilter(fd);
      assert queue[..i] == queue && queue[i..] == [];
    }

    /** The levels of one side, in arbitrary order. */
    method RemoveInSide(instrument: string, side: Side, fd: int, ghost before: Books.Book, ghost done0: set<Key>,
                        removed0: seq<int>)
      returns (removed: seq<int>, ghost done: set<Key>)
      requires Represents(books, book) && instrument in books
      requires Books.Purging(before, book, done0, removed0, fd)
      requires forall k :: k in done0 ==> k.instrument != instrument || k.side != side
      modifies this`books, this`book
      ensures Represents(books, book) && books.Keys == old(books.Keys)
      ensures Books.Purging(before, book, done, removed, fd)
      ensures forall k :: k in done ==> k in done0 || (k.instrument == instrument && k.side == side)
      ensures done0 <= done && forall k :: k in before && k.instrument == instrument && k.side == side ==> k in done
    {
      hide Books.Purging;
      removed, done := removed0, done0;
      var prices := books[instrument].Of(side).Keys;
      forall k | k in before && k.instrument == instrument && k.side == side
        ensures k.price in prices
      {
        Books.PurgeNotYet(before, book, done, removed, fd, k);
        assert HasLevel(books, k);
      }
      while prices != {}
        invariant Represents(books, book) && books.Keys == old(books.Keys)
        invariant Books.Purging(before, book, done, removed, fd)
        invariant done0 <= done
        invariant forall k :: k in done ==>
                    k in done0 || (k.instrument == instrument && k.side == side && k.price !in prices)
        invariant forall k :: k in before && k.instrument == instrument && k.side == side ==>
                    k.price in prices || k in done
        decreases prices
      {
        var price := Pick(prices);
        var k := Key(side, instrument, price);
        assert Level(books, k) == Books.Queue(book, k);
        var queue, ids := FilterQueue(Level(books, k), fd);
        Books.PurgeStep(before, book, done, removed, fd, k);
        removed, done := removed + ids, done + {k};
        Store(k, queue);
        prices := prices - {price};
      }
    }

    /** The order of the returned ids depends on the order in which the instruments are visited. */
    method RemoveOrdersOf(fd: int) returns (removed: seq<int>)
      requires Valid()
      modifies this`books, this`book
      ensures Valid()
      ensures book == Books.Purge(old(book), fd)
      ensures Books.Accounts(old(book), book, removed)
    {
      hide Books.Purging;
      removed := [];
      ghost var before, done: set<Key> := book, {};
      Books.PurgeBegins(before, fd);
      var instruments := books.Keys;
      assert forall k :: k in book ==> HasLevel(books, k);
      while instruments != {}
        invariant Represents(books, book) && instruments <= books.Keys
        invariant Books.Purging(before, book, done, removed, fd)
        invariant forall k :: k in done ==> k.instrument !in instruments
        invariant forall k :: k in before ==> k.instrument in instruments || k in done
        decreases instruments
      {
        var instrument := Pick(instruments);
        removed, done := RemoveInSide(instrument, Buy, fd, before, done, removed);
        removed, done := RemoveInSide(instrument, Sell, fd, before, done, removed);
        instruments := instruments - {instrument};
      }
      Books.PurgeDone(before, book, done, removed, fd);
    }
  }
}
