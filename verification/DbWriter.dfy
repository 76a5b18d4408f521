// The database worker of an xApp: it empties a shared queue in batches of 1, 10
// or 100 rows, through static buffers, while other threads push.
module DbWriter {
  import opened E2ap
  import opened SeqRing

  datatype Row = Row(node: NodeId, data: int)

  const BLANK := Row(NodeId(ENB, Plmn(0, 0, 0), 0, None), 0)

  /** How many rows the worker takes when it has read this queue size. */
  function BatchSize(size: nat): (k: nat)
    ensures k == 100 <==> size > 100
    ensures k == 10 <==> 10 < size <= 100
    ensures k == 1 <==> size <= 10
  {
    if size > 100 then 100 else if size > 10 then 10 else 1
  }

  /** What the other threads do around one round of the worker: pushes before it
      reads the size, pushes before it takes the lock to pop, and closing the queue. */
  datatype Tick = Tick(before: seq<Row>, between: seq<Row>, stop: bool)

  function Pushes(env: seq<Tick>): seq<Row> {
    if env == [] then [] else Pushes(env[..|env| - 1]) + env[|env| - 1].before + env[|env| - 1].between
  }

  /** A static array and the index of its next free element. */
  class StaticRows {
    const rows: array<Row>
    var val: nat

    constructor (n: nat)
      ensures fresh(rows) && rows.Length == n && val == 0
    {
      rows := new Row[n](_ => BLANK);
      val := 0;
    }

    method Reset()
      modifies this
      ensures val == 0
    {
      val := 0;
    }

    /** create_val_10 and create_val_100. */
    method CreateVal(x: Row)
      requires val < rows.Length
      modifies this, rows
      ensures val == old(val) + 1 <= rows.Length
      ensures rows[..val] == old(rows[..val]) + [x]
    {
      rows[val] := x;
      val := val + 1;
    }
  }

  /** The ring never needs more than 2^31 elements. */
  const MOST_ROWS := 0x7fff_ffff

  lemma MostRows()
    ensures Pow2(LAST_LEVEL) - 1 == MOST_ROWS
  {
    Pow32();
    assert Pow2(32) == 2 * Pow2(31);
  }

  class Worker {
    const q: Ring<Row>
    const one: StaticRows
    const ten: StaticRows
    const hundred: StaticRows
    var db: seq<Row>            // rows written, in order
    var stopped: bool
    ghost var pushed: seq<Row>  // rows pushed, in order

    ghost predicate Shape()
      reads this
    {
      && one != ten && one != hundred && ten != hundred
      && one.rows != ten.rows && one.rows != hundred.rows && ten.rows != hundred.rows
      && one.rows.Length == 1 && ten.rows.Length == 10 && hundred.rows.Length == 100
    }

    /** Rows written, then rows queued, are the rows pushed. */
    ghost predicate Valid()
      reads this, q, q.array_
    {
      && Shape() && q.Valid()
      && q.array_ != one.rows && q.array_ != ten.rows && q.array_ != hundred.rows
      && db + q.Contents() == pushed
    }

    constructor ()
      ensures Valid() && db == [] && pushed == [] && !stopped
      ensures fresh(q) && fresh(q.array_) && fresh(one) && fresh(ten) && fresh(hundred)
      ensures fresh(one.rows) && fresh(ten.rows) && fresh(hundred.rows)
    {
      q := new Ring(BLANK);
      one := new StaticRows(1);
      ten := new StaticRows(10);
      hundred := new StaticRows(100);
      db, pushed, stopped := [], [], false;
    }

    /** write_db_xapp: another thread pushes a row. */
    method Push(row: Row)
      requires Valid() && |pushed| < MOST_ROWS
      modifies this`pushed, q, q.array_
      ensures Valid() && pushed == old(pushed) + [row] && q.Contents() == old(q.Contents()) + [row]
      ensures q.array_ == old(q.array_) || fresh(q.array_)
    {
      MostRows();
      q.PushBack(row);
      pushed := pushed + [row];
    }

    method PushAll(rows: seq<Row>)
      requires Valid() && |pushed| + |rows| <= MOST_ROWS
      modifies this`pushed, q, q.array_
      ensures Valid() && pushed == old(pushed) + rows && q.Contents() == old(q.Contents()) + rows
      ensures q.array_ == old(q.array_) || fresh(q.array_)
    {
      for i := 0 to |rows|
        invariant Valid() && pushed == old(pushed) + rows[..i]
        invariant q.Contents() == old(q.Contents()) + rows[..i]
        invariant q.array_ == old(q.array_) || fresh(q.array_)
      {
        Push(rows[i]);
      }
    }

    /** pop_tsq_10, pop_tsq_100 and wait_and_pop_tsq past their waiting: the first
        rows go into the buffer, one iterator step at a time, and leave the queue. */
    method PopInto(buf: StaticRows)
      requires Valid() && (buf == one || buf == ten || buf == hundred) && buf.rows.Length <= q.Size()
      modifies buf, buf.rows, q, q.array_
      ensures q.Valid() && q.array_ == old(q.array_)
      ensures buf.rows[..] == old(q.Contents())[..buf.rows.Length]
      ensures q.Contents() == old(q.Contents())[buf.rows.Length..]
    {
      buf.Reset();
      for i := 0 to buf.rows.Length
        invariant q.Valid() && q.array_ == old(q.array_) && q.Contents() == old(q.Contents())
        invariant buf.val == i && buf.rows[..i] == q.Contents()[..i]
      {
        var x := q.At(i);
        buf.CreateVal(x);
      }
      q.EraseFront(buf.rows.Length);
    }

    /** The rows of a buffer are written one by one. */
    method WriteRows(buf: StaticRows)
      modifies this`db
      ensures db == old(db) + buf.rows[..]
    {
      for i := 0 to buf.rows.Length
        invariant db == old(db) + buf.rows[..i]
      {
        db := db + [buf.rows[i]];
      }
    }

    method Batch(buf: StaticRows)
      requires Valid() && (buf == one || buf == ten || buf == hundred) && buf.rows.Length <= q.Size()
      modifies this`db, buf, buf.rows, q, q.array_
      ensures Valid() && q.array_ == old(q.array_)
      ensures db == old(db) + old(q.Contents())[..buf.rows.Length]
    {
      PopInto(buf);
      WriteRows(buf);
    }

    /** One round of worker_thread. A thread that waits for the first row has
        already chosen to pop one. */
    method Round(t: Tick, waiting: bool) returns (waits: bool)
      requires Valid() && !stopped && |pushed| + |t.before| + |t.between| <= MOST_ROWS
      modifies this, q, q.array_, one, one.rows, ten, ten.rows, hundred, hundred.rows
      ensures Valid() && (q.array_ == old(q.array_) || fresh(q.array_))
      ensures pushed == old(pushed) + t.before + t.between
      ensures stopped == t.stop && old(db) <= db
      ensures waits <==> !t.stop && db == old(db)
      ensures db == if t.stop || old(db) == pushed then old(db)
                    else pushed[..|old(db)| + (if waiting then 1 else BatchSize(|old(pushed) + t.before| - |old(db)|))]
    {
      PushAll(t.before);
      var sz := if waiting then 0 else q.Size();
      PushAll(t.between);
      waits := false;
      if t.stop {
        stopped := true;
      } else if sz > 100 {
        Batch(hundred);
      } else if sz > 10 {
        Batch(ten);
      } else if q.Size() == 0 {
        waits := true;
      } else {
        Batch(one);
      }
    }

    /** worker_thread under any behaviour of the other threads. */
    method Run(env: seq<Tick>) returns (n: nat)
      requires Valid() && !stopped && |pushed| + |Pushes(env)| <= MOST_ROWS
      modifies this, q, q.array_, one, one.rows, ten, ten.rows, hundred, hundred.rows
      ensures Valid() && db + q.Contents() == pushed && old(db) <= db
      ensures n <= |env| && pushed == old(pushed) + Pushes(env[..n])
      ensures if stopped then n > 0 && env[n - 1].stop else n == |env|
    {
      n := 0;
      var waiting := false;
      while n < |env| && !stopped
        invariant n <= |env| && Valid()
        invariant q.array_ == old(q.array_) || fresh(q.array_)
        invariant pushed == old(pushed) + Pushes(env[..n])
        invariant old(db) <= db
        invariant stopped ==> n > 0 && env[n - 1].stop
      {
        PushesNext(old(pushed), env, n);
        waiting := Round(env[n], waiting);
        n := n + 1;
      }
    }
  }

  lemma PushesGrow(env: seq<Tick>, n: nat)
    requires n < |env|
    ensures Pushes(env[..n + 1]) == Pushes(env[..n]) + env[n].before + env[n].between
    ensures |Pushes(env[..n + 1])| <= |Pushes(env)|
  {
    assert env[..n + 1][..n] == env[..n];
    PushesMonotone(env, n + 1);
  }

  lemma PushesNext(base: seq<Row>, env: seq<Tick>, n: nat)
    requires n < |env|
    ensures base + Pushes(env[..n]) + env[n].before + env[n].between == base + Pushes(env[..n + 1])
    ensures |base + Pushes(env[..n])| + |env[n].before| + |env[n].between| <= |base| + |Pushes(env)|
  {
    PushesGrow(env, n);
  }

  lemma {:induction false} PushesMonotone(env: seq<Tick>, n: nat)
    requires n <= |env|
    ensures |Pushes(env[..n])| <= |Pushes(env)|
  {
    if n < |env| {
      PushesMonotone(env[..|env| - 1], n);
      assert env[..|env| - 1][..n] == env[..n];
    } else {
      assert env[..n] == env;
    }
  }

  /** The writer that takes one row at a time. */
  function OneByOne(queue: seq<Row>, db: seq<Row>, n: nat): (seq<Row>, seq<Row>)
    requires n <= |queue|
  {
    if n == 0 then (queue, db) else OneByOne(queue[1..], db + [queue[0]], n - 1)
  }

  /** A batch of any size is as many rounds of the simple writer. */
  lemma {:induction false} BatchRefines(queue: seq<Row>, db: seq<Row>, k: nat)
    requires k <= |queue|
    ensures OneByOne(queue, db, k) == (queue[k..], db + queue[..k])
  {
    if k > 0 {
      BatchRefines(queue[1..], db + [queue[0]], k - 1);
      assert queue[1..][k - 1..] == queue[k..];
      assert db + [queue[0]] + queue[1..][..k - 1] == db + queue[..k];
    } else {
      assert db + queue[..0] == db;
    }
  }
}
