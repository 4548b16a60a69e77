/** Driver dispatch of CartManager: which stores a mutator writes, which
    store all() reads, and count()/total() as folds over all(). The driver
    is the configured `?string`; None stands for null. */
module Driver {
  import opened Items
  import SessionCart
  import RowTable

  /** Mutators write the session when the driver is 'session' or 'both';
      null and any other string write no session. */
  function ShouldUseSession(driver: Option<string>): bool
  {
    driver == Some("session") || driver == Some("both")
  }

  /** Mutators write rows when the driver is 'database' or 'both'; null and
      any other string write no rows. */
  function ShouldUseDatabase(driver: Option<string>): bool
  {
    driver == Some("database") || driver == Some("both")
  }

  /** The store all() reads: rows for 'database', the session for 'session',
      and for every other driver value rows iff Auth::check(). */
  function ReadsDatabase(driver: Option<string>, ctx: RowTable.Context): bool
  {
    if driver == Some("session") then false
    else if driver == Some("database") then true
    else ctx.user.Some?
  }

  /** all(): the session blob or the items of the rows in cart scope. */
  function AllItems(driver: Option<string>, ctx: RowTable.Context,
                    blob: SessionCart.Blob, rows: RowTable.Table): seq<Item>
  {
    if ReadsDatabase(driver, ctx) then RowTable.ScopeItems(rows, ctx) else blob
  }

  /** Writes go to the session for 'session' and 'both', to the rows for
      'database' and 'both', and to neither store for any other value. */
  lemma DispatchSpec(driver: Option<string>)
    ensures ShouldUseSession(driver) && ShouldUseDatabase(driver) <==> driver == Some("both")
    ensures ShouldUseSession(driver) && !ShouldUseDatabase(driver) <==> driver == Some("session")
    ensures !ShouldUseSession(driver) && ShouldUseDatabase(driver) <==> driver == Some("database")
    ensures !ShouldUseSession(driver) && !ShouldUseDatabase(driver) <==>
            driver !in {Some("session"), Some("database"), Some("both")}
  {
  }

  /** all() reads the session for 'session' and rows for 'database'; for any
      other value (including 'both' and null) rows exactly when
      authenticated, otherwise the session. */
  lemma AllItemsSpec(driver: Option<string>, ctx: RowTable.Context,
                     blob: SessionCart.Blob, rows: RowTable.Table)
    ensures driver == Some("session") ==> AllItems(driver, ctx, blob, rows) == blob
    ensures driver == Some("database") ==> AllItems(driver, ctx, blob, rows) == RowTable.ScopeItems(rows, ctx)
    ensures driver != Some("session") && driver != Some("database") ==>
            AllItems(driver, ctx, blob, rows) ==
            (if ctx.user.Some? then RowTable.ScopeItems(rows, ctx) else blob)
  {
  }

  /** After clear() the session path reads nothing: all() is empty and the
      count and total are zero. */
  lemma ClearedSessionIsEmpty(driver: Option<string>, ctx: RowTable.Context, rows: RowTable.Table)
    requires !ReadsDatabase(driver, ctx)
    ensures AllItems(driver, ctx, [], rows) == []
    ensures CountOf(AllItems(driver, ctx, [], rows)) == 0
    ensures TotalOf(AllItems(driver, ctx, [], rows)) == 0.0
  {
    EmptyFolds();
  }

  /** When all() reads rows for an authenticated user it sees none of the
      rows on a well-formed table: count and total are zero whatever was
      added, and whatever the session store holds. */
  lemma AuthenticatedReadsNothing(driver: Option<string>, ctx: RowTable.Context,
                                  blob: SessionCart.Blob, rows: RowTable.Table)
    requires driver != Some("session") && ctx.user.Some? && RowTable.WellFormed(rows)
    ensures AllItems(driver, ctx, blob, rows) == []
    ensures CountOf(AllItems(driver, ctx, blob, rows)) == 0
    ensures TotalOf(AllItems(driver, ctx, blob, rows)) == 0.0
  {
    RowTable.AuthenticatedScopeEmpty(rows, ctx);
  }
}
