/** crates/application/src/staging.rs, the staged process-manager rows: upserts are buffered, and the
    lookups look through the buffer, last row first, before they ask the table
    (crates/infrastructure/src/generated/pm_state.rs: one row per cart, unique payment intents). */
module ProcessState {
  import opened Wrappers

  datatype Row = Row(cart: nat, intent: string, state: string)

  type Table = map<nat, Row>

  /** Rows under their own cart, and no payment intent twice. */
  ghost predicate Proper(table: Table) {
    && (forall cart :: cart in table ==> table[cart].cart == cart)
    && (forall a, b :: a in table && b in table && table[a].intent == table[b].intent ==> a == b)
  }

  /** `INSERT ... ON CONFLICT (cart_id) DO UPDATE`, one after the other. */
  function Upserted(table: Table, rows: seq<Row>): Table {
    if rows == [] then table
    else Upserted(table, rows[..|rows| - 1])[rows[|rows| - 1].cart := rows[|rows| - 1]]
  }

  ghost predicate AllProper(table: Table, rows: seq<Row>) {
    forall k :: 0 <= k <= |rows| ==> Proper(Upserted(table, rows[..k]))
  }

  function ByCart(table: Table, cart: nat): Option<Row> {
    if cart in table then Some(table[cart]) else None
  }

  /** The row carrying the intent, if there is one. */
  ghost function ByIntent(table: Table, intent: string): Option<Row> {
    if exists cart :: cart in table && table[cart].intent == intent
    then var cart :| cart in table && table[cart].intent == intent; Some(table[cart])
    else None
  }

  lemma ByIntentIs(table: Table, intent: string, cart: nat)
    requires Proper(table) && cart in table && table[cart].intent == intent
    ensures ByIntent(table, intent) == Some(table[cart])
  {
  }

  function LastByCart(rows: seq<Row>, cart: nat): Option<Row> {
    if rows == [] then None
    else if rows[|rows| - 1].cart == cart then Some(rows[|rows| - 1])
    else LastByCart(rows[..|rows| - 1], cart)
  }

  function LastByIntent(rows: seq<Row>, intent: string): Option<Row> {
    if rows == [] then None
    else if rows[|rows| - 1].intent == intent then Some(rows[|rows| - 1])
    else LastByIntent(rows[..|rows| - 1], intent)
  }

  function OverlayByCart(table: Table, rows: seq<Row>, cart: nat): Option<Row> {
    var staged := LastByCart(rows, cart);
    if staged.Some? then staged else ByCart(table, cart)
  }

  ghost function OverlayByIntent(table: Table, rows: seq<Row>, intent: string): Option<Row> {
    var staged := LastByIntent(rows, intent);
    if staged.Some? then staged else ByIntent(table, intent)
  }

  /** By the primary key, the buffer reads as the table would after the upserts. */
  lemma {:induction false} ByCartFaithful(table: Table, rows: seq<Row>, cart: nat)
    ensures OverlayByCart(table, rows, cart) == ByCart(Upserted(table, rows), cart)
  {
    if rows != [] { ByCartFaithful(table, rows[..|rows| - 1], cart); }
  }

  /** The same, by the payment intent. */
  ghost predicate Faithful(table: Table, rows: seq<Row>) {
    forall intent :: OverlayByIntent(table, rows, intent) == ByIntent(Upserted(table, rows), intent)
  }

  /** The upsert leaves a row it replaces under the intent it had. */
  predicate KeepsIntent(table: Table, row: Row) {
    row.cart in table ==> table[row.cart].intent == row.intent
  }

  lemma NextFaithfulIff(table: Table, rows: seq<Row>, row: Row)
    requires Proper(Upserted(table, rows)) && Proper(Upserted(table, rows + [row])) && Faithful(table, rows)
    ensures Faithful(table, rows + [row]) <==> KeepsIntent(Upserted(table, rows), row)
  {
    var all, before := rows + [row], Upserted(table, rows);
    assert all[..|rows|] == rows;
    var after := Upserted(table, all);
    assert after == before[row.cart := row];
    if KeepsIntent(before, row) {
      forall intent ensures OverlayByIntent(table, all, intent) == ByIntent(after, intent) {
        if intent == row.intent {
          ByIntentIs(after, intent, row.cart);
        } else {
          assert OverlayByIntent(table, rows, intent) == ByIntent(before, intent);
          if cart :| cart in before && before[cart].intent == intent {
            ByIntentIs(before, intent, cart);
            ByIntentIs(after, intent, cart);
          }
        }
      }
    } else {
      var former := before[row.cart].intent;
      ByIntentIs(before, former, row.cart);
      assert OverlayByIntent(table, rows, former) == ByIntent(before, former);
      assert OverlayByIntent(table, all, former) == Some(before[row.cart]);
      assert ByIntent(after, former) == None;
    }
  }

  /** Reads by intent were right after every upsert so far. */
  ghost predicate AlwaysFaithful(table: Table, rows: seq<Row>) {
    forall k :: 0 <= k <= |rows| ==> FaithfulAfter(table, rows, k)
  }

  ghost predicate FaithfulAfter(table: Table, rows: seq<Row>, k: nat)
    requires k <= |rows|
  {
    Faithful(table, rows[..k])
  }

  /** No upsert moves an existing run to another payment intent. */
  ghost predicate NeverMoves(table: Table, rows: seq<Row>) {
    forall k :: 0 <= k < |rows| ==> KeptBy(table, rows, k)
  }

  ghost predicate KeptBy(table: Table, rows: seq<Row>, k: nat)
    requires k < |rows|
  {
    KeepsIntent(Upserted(table, rows[..k]), rows[k])
  }

  lemma OneMoreRead(table: Table, but: seq<Row>, row: Row)
    ensures AlwaysFaithful(table, but + [row]) <==> AlwaysFaithful(table, but) && Faithful(table, but + [row])
  {
    var rows := but + [row];
    assert rows[..|rows|] == rows;
    forall k | 0 <= k <= |but| ensures FaithfulAfter(table, rows, k) == FaithfulAfter(table, but, k) {
      assert rows[..k] == but[..k];
    }
    assert FaithfulAfter(table, rows, |rows|) == Faithful(table, rows);
  }

  lemma OneMoreUpsert(table: Table, but: seq<Row>, row: Row)
    ensures NeverMoves(table, but + [row]) <==> NeverMoves(table, but) && KeepsIntent(Upserted(table, but), row)
  {
    var rows := but + [row];
    assert rows[..|but|] == but;
    forall k | 0 <= k < |but| ensures KeptBy(table, rows, k) == KeptBy(table, but, k) {
      assert rows[..k] == but[..k];
    }
    assert KeptBy(table, rows, |but|) == KeepsIntent(Upserted(table, but), row);
  }

  /** Reads on the stage agree with the table after every buffered upsert, exactly when no upsert
      moves an existing run to another payment intent. */
  lemma {:induction false} ByIntentFaithfulIff(table: Table, rows: seq<Row>)
    requires AllProper(table, rows)
    ensures AlwaysFaithful(table, rows) <==> NeverMoves(table, rows)
  {
    if rows == [] {
      assert Faithful(table, []);
    } else {
      var but, row := rows[..|rows| - 1], rows[|rows| - 1];
      assert rows == but + [row] && rows[..|rows|] == rows && rows[..|but|] == but;
      forall k | 0 <= k <= |but| ensures Proper(Upserted(table, but[..k])) {
        assert but[..k] == rows[..k];
      }
      ByIntentFaithfulIff(table, but);
      OneMoreRead(table, but, row);
      OneMoreUpsert(table, but, row);
      if AlwaysFaithful(table, but) {
        assert FaithfulAfter(table, but, |but|) && but[..|but|] == but;
        NextFaithfulIff(table, but, row);
      }
    }
  }

  class StagingPaymentProcessState {
    const inner: Table
    var staged: seq<Row>

    constructor (inner: Table)
      ensures this.inner == inner && staged == []
    {
      this.inner := inner;
      staged := [];
    }

    method Upsert(row: Row)
      modifies this
      ensures staged == old(staged) + [row]
    {
      staged := staged + [row];
    }

    /** `last_staged`, then the table. */
    method GetByCart(cart: nat) returns (row: Option<Row>)
      ensures row == OverlayByCart(inner, staged, cart)
    {
      var i := |staged|;
      assert staged[..i] == staged;
      while i > 0
        invariant 0 <= i <= |staged| && LastByCart(staged, cart) == LastByCart(staged[..i], cart)
      {
        assert staged[..i][..i - 1] == staged[..i - 1];
        i := i - 1;
        if staged[i].cart == cart { return Some(staged[i]); }
      }
      return ByCart(inner, cart);
    }

    method GetByIntent(intent: string) returns (row: Option<Row>)
      requires Proper(inner)
      ensures row == OverlayByIntent(inner, staged, intent)
    {
      var i := |staged|;
      assert staged[..i] == staged;
      while i > 0
        invariant 0 <= i <= |staged| && LastByIntent(staged, intent) == LastByIntent(staged[..i], intent)
      {
        assert staged[..i][..i - 1] == staged[..i - 1];
        i := i - 1;
        if staged[i].intent == intent { return Some(staged[i]); }
      }
      var carriers := set cart | cart in inner && inner[cart].intent == intent;
      assert forall cart :: cart in inner && inner[cart].intent == intent ==> cart in carriers;
      if carriers == {} { return None; }
      var cart :| cart in carriers;
      ByIntentIs(inner, intent, cart);
      return Some(inner[cart]);
    }
  }
}
