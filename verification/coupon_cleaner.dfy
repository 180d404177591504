/** `CouponCleaner`: the background thread that, at most once a day, deletes every coupon whose
    end date has passed. */
module CouponCleaner {
  import opened Common
  import opened Entities
  import opened Repository

  const DayLengthMillis := 86_400_000

  /** The thread's memory: when the last pass ran (0 before the first one). */
  datatype Cleaner = Cleaner(lastCleanedMillis: Millis)

  const Fresh := Cleaner(0)

  /** The repository query's test: an end date strictly before `now`. */
  predicate Expired(c: Coupon, now: Millis) {
    c.endDate.Some? && c.endDate.value < now
  }

  /** One iteration of the loop at `now`: when a day has passed since the last pass, remember
      `now` and delete every coupon that expired before it (with its holds); otherwise do
      nothing. */
  function Pass(c: Cleaner, st: Store, now: Millis): (r: (Cleaner, Store))
    ensures now - c.lastCleanedMillis < DayLengthMillis ==> r == (c, st)
    ensures now - c.lastCleanedMillis >= DayLengthMillis ==>
      && r.0.lastCleanedMillis == now
      && (forall k :: k in r.1.coupons.rows <==> k in st.coupons.rows && !Expired(st.coupons.rows[k], now))
      && (forall k | k in r.1.coupons.rows :: r.1.coupons.rows[k] == st.coupons.rows[k])
      && (forall h | h in st.holdings :: h in r.1.holdings <==> h.coupon in r.1.coupons.rows || h.coupon !in st.coupons.rows)
      && r.1.holdings <= st.holdings
      && r.1.companies == st.companies && r.1.customers == st.customers
    ensures (forall k | k in st.coupons.rows :: !Expired(st.coupons.rows[k], now)) ==> r.1 == st
  {
    if now - c.lastCleanedMillis >= DayLengthMillis then
      var expired := ExpiredCoupons(st, now);
      assert forall k :: k in expired <==> k in st.coupons.rows && Expired(st.coupons.rows[k], now);
      assert (forall k | k in st.coupons.rows :: !Expired(st.coupons.rows[k], now)) ==> expired == {};
      (Cleaner(now), if expired != {} then DeleteCoupons(st, expired) else st)
    else (c, st)
  }

  /** A pass keeps the store invariant. */
  lemma PassKeepsValid(c: Cleaner, st: Store, now: Millis)
    requires Valid(st)
    ensures Valid(Pass(c, st, now).1)
  {
    DeleteCouponsValid(st, ExpiredCoupons(st, now));
  }

  /** Once a pass has run, nothing runs again until a full day later. */
  lemma OncePerDay(c: Cleaner, st: Store, t1: Millis, t2: Millis)
    requires t1 - c.lastCleanedMillis >= DayLengthMillis
    requires t2 < t1 + DayLengthMillis
    ensures var (c1, st1) := Pass(c, st, t1);
      Pass(c1, st1, t2) == (c1, st1)
  {
  }

  datatype Event = Tick(now: Millis) | Stop

  /** The thread: one iteration per wake-up, until `stop()`. Only coupons that had expired at a
      wake-up that ran a pass are deleted, surviving rows are untouched, and after the last pass
      no coupon that expired before it is left. */
  method Run(c0: Cleaner, st0: Store, events: seq<Event>) returns (c: Cleaner, st: Store, handled: nat, passes: nat)
    ensures handled <= |events|
    ensures forall i | 0 <= i < handled - 1 :: events[i] != Stop
    ensures handled < |events| ==> 0 < handled && events[handled - 1] == Stop
    ensures st.coupons.rows.Keys <= st0.coupons.rows.Keys
    ensures forall k | k in st.coupons.rows :: st.coupons.rows[k] == st0.coupons.rows[k]
    ensures forall k | k in st0.coupons.rows && k !in st.coupons.rows ::
      exists i | 0 <= i < handled :: events[i].Tick? && Expired(st0.coupons.rows[k], events[i].now)
    ensures passes > 0 ==> forall k | k in st.coupons.rows :: !Expired(st.coupons.rows[k], c.lastCleanedMillis)
    ensures passes == 0 ==> c == c0 && st == st0
    ensures Valid(st0) ==> Valid(st)
  {
    c, st, handled, passes := c0, st0, 0, 0;
    var working := true;
    while working && handled < |events|
      invariant handled <= |events|
      invariant working ==> forall i | 0 <= i < handled :: events[i] != Stop
      invariant !working ==> 0 < handled && events[handled - 1] == Stop && forall i | 0 <= i < handled - 1 :: events[i] != Stop
      invariant st.coupons.rows.Keys <= st0.coupons.rows.Keys
      invariant forall k | k in st.coupons.rows :: st.coupons.rows[k] == st0.coupons.rows[k]
      invariant forall k | k in st0.coupons.rows && k !in st.coupons.rows ::
        exists i | 0 <= i < handled :: events[i].Tick? && Expired(st0.coupons.rows[k], events[i].now)
      invariant passes > 0 ==> forall k | k in st.coupons.rows :: !Expired(st.coupons.rows[k], c.lastCleanedMillis)
      invariant passes == 0 ==> c == c0 && st == st0
      invariant Valid(st0) ==> Valid(st)
    {
      match events[handled] {
        case Stop =>
          working := false;
        case Tick(now) =>
          if now - c.lastCleanedMillis >= DayLengthMillis {
            if Valid(st) {
              PassKeepsValid(c, st, now);
            }
            c, st := Pass(c, st, now).0, Pass(c, st, now).1;
            passes := passes + 1;
          }
      }
      handled := handled + 1;
    }
  }
}
