/** The subscriber table: a pending / active / unsubscribed state machine
    over records keyed by normalised email address. */
module Subscribers {
  import opened Text
  import opened Config

  const Pending: string := "pending"
  const Active: string := "active"
  const Unsubscribed: string := "unsubscribed"

  /** One stored item, without its key. Absent and null attributes are
      both `None`. */
  datatype Record = Record(
    status: string,
    confirmationToken: Option<string>,
    unsubscribeToken: Option<string>,
    createdAt: string,
    source: string,
    confirmedAt: Option<string>,
    unsubscribedAt: Option<string>)

  /** An item as the store returns it: its key and its attributes. */
  datatype Item = Item(email: string, record: Record)

  type Table = map<string, Record>

  /** The table after an operation, with the operation's result. */
  datatype Change<R> = Change(table: Table, result: R)

  /** `email.lower().strip()`, the key of every lookup and write. */
  function Key(email: string): string
  {
    Strip(Lower(email))
  }

  lemma SliceKeepsLowerCase(z: string, x: nat, n: nat)
    requires LowerCase(z) && x + n <= |z|
    ensures LowerCase(z[x..x + n])
  {
    var s := z[x..x + n];
    forall j | 0 <= j < n
      ensures LowerChar(s[j]) == s[j]
    {
      assert s[j] == z[x + j];
    }
  }

  /** Normalising twice changes nothing. */
  lemma KeyIdempotent(email: string)
    ensures Key(Key(email)) == Key(email)
  {
    var z := Lower(email);
    LowerIsLowerCase(email);
    var s := Strip(z);
    StripIsSlice(z);
    SliceKeepsLowerCase(z, |z| - |LStrip(z)|, |s|);
    LowerFixesLowerCase(s);
    StripKeepsCleanText(s);
  }

  /** Every key of the table is a normalised email. */
  predicate Normalised(t: Table)
  {
    forall k :: k in t ==> Key(k) == k
  }

  /** `get_subscriber(email)`. */
  function Lookup(t: Table, email: string): (r: Option<Record>)
  {
    var k := Key(email);
    if k in t then Some(t[k]) else None
  }

  // ---------------------------------------------------------------------
  // Subscribing

  /** A brand-new pending subscriber. */
  function NewRecord(source: string, now: string, confirmationToken: string, unsubscribeToken: string): Record
  {
    Record(Pending, Some(confirmationToken), Some(unsubscribeToken), now, source, None, None)
  }

  /** `_update_pending_subscriber`: a fresh confirmation token and time. */
  function Repending(r: Record, confirmationToken: string, now: string): Record
  {
    r.(confirmationToken := Some(confirmationToken), createdAt := now)
  }

  /** `_reactivate_subscriber`: back to pending with a fresh token, and
      both earlier timestamps cleared. */
  function Reactivated(r: Record, confirmationToken: string, now: string): Record
  {
    r.(status := Pending, confirmationToken := Some(confirmationToken), createdAt := now,
       confirmedAt := None, unsubscribedAt := None)
  }

  datatype CreateOutcome = Subscribed(item: Item) | AlreadySubscribed

  /** `create_subscriber(email, source)`, with the clock, the random
      confirmation token and the unsubscribe-token derivation given. */
  function Create(t: Table, email: string, source: string, now: string, confirmationToken: string,
                  unsubscribeTokenOf: string -> string): Change<CreateOutcome>
  {
    CreateUnder(t, Key(email), source, now, confirmationToken, unsubscribeTokenOf)
  }

  /** `create_subscriber` once the address is normalised to `k`. */
  function CreateUnder(t: Table, k: string, source: string, now: string, confirmationToken: string,
                       unsubscribeTokenOf: string -> string): Change<CreateOutcome>
  {
    if k in t && t[k].status == Active then
      Change(t, AlreadySubscribed)
    else if k in t && t[k].status == Pending then
      var r := Repending(t[k], confirmationToken, now);
      Change(t[k := r], Subscribed(Item(k, r)))
    else if k in t && t[k].status == Unsubscribed then
      var r := Reactivated(t[k], confirmationToken, now);
      Change(t[k := r], Subscribed(Item(k, r)))
    else
      var r := NewRecord(source, now, confirmationToken, unsubscribeTokenOf(k));
      Change(t[k := r], Subscribed(Item(k, r)))
  }

  /** An active address is refused and the table kept; any other address
      ends up pending under its normalised key with the new confirmation
      token, nothing else in the table changing. A pending record keeps
      everything else, an unsubscribed one has its confirmation and
      unsubscription times cleared, and an unknown address (or one whose
      stored status is none of the three) gets a new record with both
      tokens, the time and the source. */
  lemma CreateSpec(t: Table, k: string, source: string, now: string, confirmationToken: string,
                   unsubscribeTokenOf: string -> string)
    ensures var c := CreateUnder(t, k, source, now, confirmationToken, unsubscribeTokenOf);
            && (c.result.AlreadySubscribed? <==> k in t && t[k].status == Active)
            && (c.result.AlreadySubscribed? ==> c.table == t)
            && (c.result.Subscribed? ==>
                  && c.result.item.email == k
                  && c.table == t[k := c.result.item.record]
                  && c.result.item.record.status == Pending
                  && c.result.item.record.confirmationToken == Some(confirmationToken)
                  && c.result.item.record.createdAt == now
                  && (k in t && t[k].status == Pending ==>
                        c.result.item.record == t[k].(confirmationToken := Some(confirmationToken), createdAt := now))
                  && (k in t && t[k].status == Unsubscribed ==>
                        && c.result.item.record.confirmedAt == None
                        && c.result.item.record.unsubscribedAt == None
                        && c.result.item.record.unsubscribeToken == t[k].unsubscribeToken
                        && c.result.item.record.source == t[k].source)
                  && (!(k in t && t[k].status in {Pending, Active, Unsubscribed}) ==>
                        c.result.item.record == NewRecord(source, now, confirmationToken, unsubscribeTokenOf(k))))
  {
  }

  // ---------------------------------------------------------------------
  // Confirming

  /** `find_by_confirmation_token(token)`: the first item of the scan
      whose confirmation token matches. `scan` is the order in which the
      store's scan returns the table's keys. */
  function FindByToken(t: Table, token: string, scan: seq<string>): (r: Option<string>)
    ensures r.Some? ==> r.value in t && r.value in scan && t[r.value].confirmationToken == Some(token)
    ensures r.None? ==> forall k :: k in scan && k in t ==> t[k].confirmationToken != Some(token)
  {
    if scan == [] then None
    else if scan[0] in t && t[scan[0]].confirmationToken == Some(token) then Some(scan[0])
    else FindByToken(t, token, scan[1..])
  }

  /** The confirmed form of a record. */
  function Confirmed(r: Record, now: string): Record
  {
    r.(status := Active, confirmedAt := Some(now), confirmationToken := None)
  }

  /** `confirm_subscriber(token)`. */
  function Confirm(t: Table, token: string, scan: seq<string>, now: string): Change<Option<Item>>
  {
    match FindByToken(t, token, scan)
    case None => Change(t, None)
    case Some(k) =>
      if t[k].status == Active then Change(t, Some(Item(k, t[k])))
      else Change(t[k := Confirmed(t[k], now)], Some(Item(k, Confirmed(t[k], now))))
  }

  /** An unknown token changes nothing; a found active subscriber is
      returned as stored; any other found subscriber becomes active, is
      stamped with the confirmation time and loses its token, so the token
      cannot confirm it a second time. */
  lemma ConfirmSpec(t: Table, token: string, scan: seq<string>, now: string)
    ensures var c := Confirm(t, token, scan, now);
            && (c.result.None? <==> forall k :: k in scan && k in t ==> t[k].confirmationToken != Some(token))
            && (c.result.None? ==> c.table == t)
            && (c.result.Some? ==>
                  var k := c.result.value.email;
                  && k in t && k in scan && t[k].confirmationToken == Some(token)
                  && c.result.value.record.status == Active
                  && c.table == t[k := c.result.value.record]
                  && (t[k].status == Active ==> c.table == t)
                  && (t[k].status != Active ==>
                        && c.result.value.record.confirmedAt == Some(now)
                        && c.result.value.record.confirmationToken == None
                        && FindByToken(c.table, token, [k]) == None))
  {
    var c := Confirm(t, token, scan, now);
    if c.result.None? {
      assert FindByToken(t, token, scan).None?;
    }
  }

  // ---------------------------------------------------------------------
  // Unsubscribing

  /** `unsubscribe(email, token)`. */
  function Unsubscription(t: Table, email: string, token: string, now: string): Change<bool>
  {
    UnsubscribeUnder(t, Key(email), token, now)
  }

  /** `unsubscribe` once the address is normalised to `k`. */
  function UnsubscribeUnder(t: Table, k: string, token: string, now: string): Change<bool>
  {
    if k !in t then Change(t, false)
    else if t[k].unsubscribeToken != Some(token) then Change(t, false)
    else Change(t[k := t[k].(status := Unsubscribed, unsubscribedAt := Some(now))], true)
  }

  /** Unsubscribing succeeds exactly when the address is known and the
      token is the stored one; a refusal changes nothing, a success changes
      only the status and the unsubscription time of that one record. */
  lemma UnsubscribeSpec(t: Table, k: string, token: string, now: string)
    ensures var c := UnsubscribeUnder(t, k, token, now);
            && (c.result <==> k in t && t[k].unsubscribeToken == Some(token))
            && (!c.result ==> c.table == t)
            && (c.result ==>
                  && c.table.Keys == t.Keys
                  && c.table[k].status == Unsubscribed
                  && c.table[k].unsubscribedAt == Some(now)
                  && c.table[k].(status := t[k].status, unsubscribedAt := t[k].unsubscribedAt) == t[k]
                  && forall j :: j in t && j != k ==> c.table[j] == t[j])
  {
  }

  // ---------------------------------------------------------------------
  // The lifecycle

  /** Subscribing writes only under a normalised key. */
  lemma CreateKeepsKeysNormalised(t: Table, email: string, source: string, now: string, token: string,
                                  unsubscribeTokenOf: string -> string)
    requires Normalised(t)
    ensures Normalised(Create(t, email, source, now, token, unsubscribeTokenOf).table)
  {
    KeyIdempotent(email);
    CreateUnderKeepsNormalised(t, Key(email), source, now, token, unsubscribeTokenOf);
  }

  lemma CreateUnderKeepsNormalised(t: Table, k: string, source: string, now: string, token: string,
                                   unsubscribeTokenOf: string -> string)
    requires Normalised(t) && Key(k) == k
    ensures Normalised(CreateUnder(t, k, source, now, token, unsubscribeTokenOf).table)
  {
    var c := CreateUnder(t, k, source, now, token, unsubscribeTokenOf);
    CreateSpec(t, k, source, now, token, unsubscribeTokenOf);
    if c.result.Subscribed? {
      WriteKeepsNormalised(t, k, c.result.item.record);
    }
  }

  /** A write under a normalised key keeps the table normalised. */
  lemma WriteKeepsNormalised(t: Table, k: string, r: Record)
    requires Normalised(t) && Key(k) == k
    ensures Normalised(t[k := r])
  {
  }

  /** Confirming and unsubscribing add no key. */
  lemma UpdatesKeepKeys(t: Table, k: string, token: string, scan: seq<string>, now: string)
    ensures Confirm(t, token, scan, now).table.Keys == t.Keys
    ensures UnsubscribeUnder(t, k, token, now).table.Keys == t.Keys
  {
  }

  /** The first match of a scan is the only record holding the token. */
  lemma {:induction false} FindOnly(t: Table, token: string, scan: seq<string>, k: string)
    requires k in scan && k in t && t[k].confirmationToken == Some(token)
    requires forall j :: j in t && j != k ==> t[j].confirmationToken != Some(token)
    ensures FindByToken(t, token, scan) == Some(k)
  {
    if scan[0] != k {
      assert k in scan[1..];
      FindOnly(t, token, scan[1..], k);
    }
  }

  /** A fresh sign-up can be confirmed with the token it was given (when no
      other record holds that token), after which the address is active and
      its own unsubscribe link works. */
  lemma SignUpThenConfirm(t: Table, k: string, source: string, now: string, token: string,
                          unsubscribeTokenOf: string -> string, scan: seq<string>, later: string)
    requires k !in t
    requires k in scan
    requires forall j :: j in t ==> t[j].confirmationToken != Some(token)
    ensures var t1 := CreateUnder(t, k, source, now, token, unsubscribeTokenOf).table;
            var c := Confirm(t1, token, scan, later);
            && c.result == Some(Item(k, c.table[k]))
            && c.table[k].status == Active
            && c.table[k].confirmedAt == Some(later)
            && UnsubscribeUnder(c.table, k, unsubscribeTokenOf(k), later).result
  {
    var t1 := CreateUnder(t, k, source, now, token, unsubscribeTokenOf).table;
    FindOnly(t1, token, scan, k);
  }

  /** Signing up again after unsubscribing reactivates the same record:
      pending, both timestamps cleared, the unsubscribe token and source
      kept. */
  lemma ResubscribeAfterUnsubscribe(t: Table, k: string, token: string, now: string, source: string,
                                    later: string, confirmationToken: string,
                                    unsubscribeTokenOf: string -> string)
    requires UnsubscribeUnder(t, k, token, now).result
    ensures var t1 := UnsubscribeUnder(t, k, token, now).table;
            var c := CreateUnder(t1, k, source, later, confirmationToken, unsubscribeTokenOf);
            && c.result == Subscribed(Item(k, c.table[k]))
            && c.table[k] == t[k].(status := Pending, confirmationToken := Some(confirmationToken),
                                   createdAt := later, confirmedAt := None, unsubscribedAt := None)
  {
  }

  // ---------------------------------------------------------------------
  // Bulk import

  /** `{created, skipped, failed}`. */
  datatype ImportCounts = ImportCounts(created: nat, skipped: nat, failed: nat)

  /** The record a bulk import writes: no confirmation token, confirmed at
      once when imported as active. */
  function ImportedRecord(status: string, source: string, now: string, unsubscribeToken: string): Record
  {
    Record(status, None, Some(unsubscribeToken), now, source, if status == Active then Some(now) else None, None)
  }

  /** One address of a bulk import at position `i`, already normalised to
      `k`; `failing` holds the positions whose store call raises. */
  function ImportOne(c: Change<ImportCounts>, k: string, i: nat, source: string, status: string,
                     now: string, unsubscribeTokenOf: string -> string, failing: set<nat>): Change<ImportCounts>
  {
    var n := c.result;
    if k == [] then c
    else if i in failing then Change(c.table, n.(failed := n.failed + 1))
    else if k in c.table then Change(c.table, n.(skipped := n.skipped + 1))
    else Change(c.table[k := ImportedRecord(status, source, now, unsubscribeTokenOf(k))],
                n.(created := n.created + 1))
  }

  /** The normalised form of each address of a list. */
  function Keys(emails: seq<string>): (keys: seq<string>)
    ensures |keys| == |emails|
    ensures forall i :: 0 <= i < |emails| ==> keys[i] == Key(emails[i])
  {
    seq(|emails|, i requires 0 <= i < |emails| => Key(emails[i]))
  }

  /** Every key the import computes is already normalised: normalising it
      again changes nothing. */
  lemma KeysAreNormalised(emails: seq<string>)
    ensures forall i :: 0 <= i < |emails| ==> Key(Keys(emails)[i]) == Keys(emails)[i]
  {
    forall i | 0 <= i < |emails|
      ensures Key(Keys(emails)[i]) == Keys(emails)[i]
    {
      KeyIdempotent(emails[i]);
    }
  }

  /** The table and counters after importing the (normalised) addresses
      `keys` in order. */
  function Imported(t: Table, keys: seq<string>, source: string, status: string, now: string,
                    unsubscribeTokenOf: string -> string, failing: set<nat>): Change<ImportCounts>
  {
    if keys == [] then Change(t, ImportCounts(0, 0, 0))
    else
      var i := |keys| - 1;
      ImportOne(Imported(t, keys[..i], source, status, now, unsubscribeTokenOf, failing), keys[i], i,
                source, status, now, unsubscribeTokenOf, failing)
  }

  lemma ImportedStep(t: Table, keys: seq<string>, i: nat, source: string, status: string, now: string,
                     unsubscribeTokenOf: string -> string, failing: set<nat>)
    requires i < |keys|
    ensures Imported(t, keys[..i + 1], source, status, now, unsubscribeTokenOf, failing) ==
              ImportOne(Imported(t, keys[..i], source, status, now, unsubscribeTokenOf, failing), keys[i], i,
                        source, status, now, unsubscribeTokenOf, failing)
  {
    assert keys[..i + 1][..i] == keys[..i];
  }

  /** The number of addresses that are not blank once normalised. */
  function NonBlank(keys: seq<string>): nat
  {
    if keys == [] then 0
    else NonBlank(keys[..|keys| - 1]) + (if keys[|keys| - 1] == [] then 0 else 1)
  }

  /** One step of the import: existing records stay, at most the step's
      own address is added (and then counted as created), and a non-blank
      address bumps exactly one counter. */
  lemma ImportOneSpec(c: Change<ImportCounts>, k: string, i: nat, source: string, status: string,
                      now: string, unsubscribeTokenOf: string -> string, failing: set<nat>)
    ensures var d := ImportOne(c, k, i, source, status, now, unsubscribeTokenOf, failing);
            && (forall j :: j in c.table ==> j in d.table && d.table[j] == c.table[j])
            && |d.table| + c.result.created == |c.table| + d.result.created
            && d.result.created + d.result.skipped + d.result.failed ==
                 c.result.created + c.result.skipped + c.result.failed + (if k == [] then 0 else 1)
            && (forall j :: j in d.table && j !in c.table ==>
                  j == k && d.table[j] == ImportedRecord(status, source, now, unsubscribeTokenOf(j)))
  {
    var d := ImportOne(c, k, i, source, status, now, unsubscribeTokenOf, failing);
    if k != [] && i !in failing && k !in c.table {
      assert d.table == c.table[k := ImportedRecord(status, source, now, unsubscribeTokenOf(k))];
    } else {
      assert d.table == c.table;
    }
  }

  /** Every non-blank address is counted exactly once, blank ones not at
      all. */
  lemma {:induction false} ImportTotals(t: Table, keys: seq<string>, source: string, status: string,
                                        now: string, unsubscribeTokenOf: string -> string, failing: set<nat>)
    ensures var c := Imported(t, keys, source, status, now, unsubscribeTokenOf, failing);
            c.result.created + c.result.skipped + c.result.failed == NonBlank(keys)
  {
    if keys != [] {
      var i := |keys| - 1;
      ImportTotals(t, keys[..i], source, status, now, unsubscribeTokenOf, failing);
      ImportOneSpec(Imported(t, keys[..i], source, status, now, unsubscribeTokenOf, failing), keys[i], i,
                    source, status, now, unsubscribeTokenOf, failing);
    }
  }

  /** Existing records are never touched, and exactly `created` records
      are added. */
  lemma {:induction false} ImportKeepsExisting(t: Table, keys: seq<string>, source: string, status: string,
                                               now: string, unsubscribeTokenOf: string -> string,
                                               failing: set<nat>)
    ensures var c := Imported(t, keys, source, status, now, unsubscribeTokenOf, failing);
            && (forall k :: k in t ==> k in c.table && c.table[k] == t[k])
            && |c.table| == |t| + c.result.created
  {
    if keys != [] {
      var i := |keys| - 1;
      ImportKeepsExisting(t, keys[..i], source, status, now, unsubscribeTokenOf, failing);
      ImportOneSpec(Imported(t, keys[..i], source, status, now, unsubscribeTokenOf, failing), keys[i], i,
                    source, status, now, unsubscribeTokenOf, failing);
    }
  }

  /** Each added record is the imported form of a listed address,
      confirmed exactly when imported as active. */
  lemma {:induction false} ImportAdds(t: Table, keys: seq<string>, source: string, status: string,
                                      now: string, unsubscribeTokenOf: string -> string, failing: set<nat>)
    ensures var c := Imported(t, keys, source, status, now, unsubscribeTokenOf, failing);
            forall k :: k in c.table && k !in t ==>
              && k in keys
              && c.table[k] == ImportedRecord(status, source, now, unsubscribeTokenOf(k))
              && (c.table[k].confirmedAt.Some? <==> status == Active)
  {
    if keys != [] {
      var i := |keys| - 1;
      ImportAdds(t, keys[..i], source, status, now, unsubscribeTokenOf, failing);
      var c0 := Imported(t, keys[..i], source, status, now, unsubscribeTokenOf, failing);
      var c := ImportOne(c0, keys[i], i, source, status, now, unsubscribeTokenOf, failing);
      ImportOneSpec(c0, keys[i], i, source, status, now, unsubscribeTokenOf, failing);
      forall k | k in c.table && k !in t
        ensures k in keys && c.table[k] == ImportedRecord(status, source, now, unsubscribeTokenOf(k))
      {
        if k in c0.table {
          assert k in keys[..i];
        }
      }
    }
  }

  // ---------------------------------------------------------------------
  // Scans

  /** The keys among `keys` whose record has the given status. */
  function Among(t: Table, keys: set<string>, status: string): set<string>
  {
    set k | k in keys && k in t && t[k].status == status
  }

  lemma AmongStep(t: Table, keys: set<string>, k: string, status: string)
    requires k !in keys && k in t
    ensures Among(t, keys + {k}, status) ==
              if t[k].status == status then Among(t, keys, status) + {k} else Among(t, keys, status)
    ensures |Among(t, keys + {k}, status)| ==
              |Among(t, keys, status)| + (if t[k].status == status then 1 else 0)
  {
    if t[k].status == status {
      assert Among(t, keys + {k}, status) == Among(t, keys, status) + {k};
    } else {
      assert Among(t, keys + {k}, status) == Among(t, keys, status);
    }
  }

  /** The three counters over the given keys. */
  function StatusCounts(t: Table, keys: set<string>): map<string, nat>
  {
    Counts(|Among(t, keys, Pending)|, |Among(t, keys, Active)|, |Among(t, keys, Unsubscribed)|)
  }

  lemma NothingCounted(t: Table)
    ensures StatusCounts(t, {}) == Counts(0, 0, 0)
  {
    assert Among(t, {}, Pending) == Among(t, {}, Active) == Among(t, {}, Unsubscribed) == {};
  }

  /** `if status in counts: counts[status] += 1`. */
  function Tally(counts: map<string, nat>, status: string): map<string, nat>
  {
    if status in counts then counts[status := counts[status] + 1] else counts
  }

  /** Counting one more record bumps its status's counter, if it has one. */
  lemma CountStep(t: Table, seen: set<string>, k: string, counts: map<string, nat>)
    requires k !in seen && k in t
    requires counts == StatusCounts(t, seen)
    ensures Tally(counts, t[k].status) == StatusCounts(t, seen + {k})
  {
    AmongStep(t, seen, k, Pending);
    AmongStep(t, seen, k, Active);
    AmongStep(t, seen, k, Unsubscribed);
    var p, a, u := |Among(t, seen, Pending)|, |Among(t, seen, Active)|, |Among(t, seen, Unsubscribed)|;
    var s := t[k].status;
    StatusesDistinct();
    if s in counts {
      Bump(p, a, u, s);
    }
  }

  lemma StatusesDistinct()
    ensures Pending != Active && Pending != Unsubscribed && Active != Unsubscribed
  {
    assert Pending[0] == 'p' && Active[0] == 'a' && Unsubscribed[0] == 'u';
  }

  /** Bumping one counter of the dictionary. */
  lemma Bump(p: nat, a: nat, u: nat, s: string)
    requires s in Counts(p, a, u)
    ensures var c := Counts(p, a, u);
            c[s := c[s] + 1] ==
              if s == Pending then Counts(p + 1, a, u)
              else if s == Active then Counts(p, a + 1, u)
              else Counts(p, a, u + 1)
  {
    StatusesDistinct();
  }

  /** The counters as the source's dictionary. */
  function Counts(pending: nat, active: nat, unsubscribed: nat): map<string, nat>
  {
    map[Pending := pending, Active := active, Unsubscribed := unsubscribed]
  }

  /** The three counters never add up to more than the table holds, and to
      exactly that when every record has one of the three statuses. */
  lemma StatusCountsBound(t: Table)
    ensures var m := StatusCounts(t, t.Keys);
            m[Pending] + m[Active] + m[Unsubscribed] <= |t|
    ensures (forall k :: k in t ==> t[k].status in {Pending, Active, Unsubscribed}) ==>
              var m := StatusCounts(t, t.Keys);
              m[Pending] + m[Active] + m[Unsubscribed] == |t|
  {
    var p, a, u := Among(t, t.Keys, Pending), Among(t, t.Keys, Active), Among(t, t.Keys, Unsubscribed);
    assert p !! a && p !! u && a !! u;
    var all := p + a + u;
    assert |all| == |p| + |a| + |u|;
    SubsetCard(all, t.Keys);
    if forall k :: k in t ==> t[k].status in {Pending, Active, Unsubscribed} {
      assert all == t.Keys;
    }
  }

  lemma {:induction false} SubsetCard(a: set<string>, b: set<string>)
    requires a <= b
    ensures |a| <= |b|
    decreases |b|
  {
    if a != {} {
      var x :| x in a;
      SubsetCard(a - {x}, b - {x});
    }
  }

  /** Distinct elements. */
  predicate Distinct(s: seq<string>)
  {
    forall i, j :: 0 <= i < j < |s| ==> s[i] != s[j]
  }

  /** `SubscriberManager`: the operations over the stored table. */
  class SubscriberManager {
    const tableName: string
    var table: Table

    constructor(tableName: string, contents: Table)
      ensures this.tableName == tableName && table == contents
    {
      this.tableName := tableName;
      table := contents;
    }

    /** `get_subscriber(email)`. */
    function GetSubscriber(email: string): (r: Option<Record>)
      reads this
      ensures r.Some? <==> Key(email) in table
      ensures r.Some? ==> r.value == table[Key(email)]
    {
      Lookup(table, email)
    }

    /** `_update_pending_subscriber(email)`. */
    method UpdatePendingSubscriber(email: string, now: string, confirmationToken: string) returns (item: Item)
      requires email in table
      modifies this
      ensures item == Item(email, Repending(old(table)[email], confirmationToken, now))
      ensures table == old(table)[email := item.record]
    {
      var r := table[email].(confirmationToken := Some(confirmationToken), createdAt := now);
      table := table[email := r];
      item := Item(email, r);
    }

    /** `_reactivate_subscriber(email)`. */
    method ReactivateSubscriber(email: string, now: string, confirmationToken: string) returns (item: Item)
      requires email in table
      modifies this
      ensures item == Item(email, Reactivated(old(table)[email], confirmationToken, now))
      ensures table == old(table)[email := item.record]
    {
      var r := table[email].(status := Pending, confirmationToken := Some(confirmationToken), createdAt := now,
                             confirmedAt := None, unsubscribedAt := None);
      table := table[email := r];
      item := Item(email, r);
    }

    /** `create_subscriber(email, source)`. */
    method CreateSubscriber(email: string, source: string, now: string, confirmationToken: string,
                            unsubscribeTokenOf: string -> string) returns (outcome: CreateOutcome)
      modifies this
      ensures Change(table, outcome) == Create(old(table), email, source, now, confirmationToken, unsubscribeTokenOf)
    {
      var key := Key(email);
      KeyIdempotent(email);
      var existing := GetSubscriber(key);
      if existing.Some? {
        if existing.value.status == Active {
          return AlreadySubscribed;
        } else if existing.value.status == Pending {
          var item := UpdatePendingSubscriber(key, now, confirmationToken);
          return Subscribed(item);
        } else if existing.value.status == Unsubscribed {
          var item := ReactivateSubscriber(key, now, confirmationToken);
          return Subscribed(item);
        }
      }
      var r := Record(Pending, Some(confirmationToken), Some(unsubscribeTokenOf(key)), now, source, None, None);
      table := table[key := r];
      outcome := Subscribed(Item(key, r));
    }

    /** `confirm_subscriber(token)`. */
    method ConfirmSubscriber(token: string, scan: seq<string>, now: string) returns (result: Option<Item>)
      modifies this
      ensures Change(table, result) == Confirm(old(table), token, scan, now)
    {
      var found := FindByToken(table, token, scan);
      if found.None? {
        return None;
      }
      var email := found.value;
      var subscriber := table[email];
      if subscriber.status == Active {
        return Some(Item(email, subscriber));
      }
      var r := subscriber.(status := Active, confirmedAt := Some(now), confirmationToken := None);
      table := table[email := r];
      result := Some(Item(email, r));
    }

    /** `unsubscribe(email, token)`. */
    method Unsubscribe(email: string, token: string, now: string) returns (ok: bool)
      modifies this
      ensures Change(table, ok) == Unsubscription(old(table), email, token, now)
    {
      var key := Key(email);
      KeyIdempotent(email);
      var subscriber := GetSubscriber(key);
      if subscriber.None? {
        return false;
      }
      if subscriber.value.unsubscribeToken != Some(token) {
        return false;
      }
      table := table[key := subscriber.value.(status := Unsubscribed, unsubscribedAt := Some(now))];
      ok := true;
    }

    /** `get_active_subscribers()`: every active address, once each, in
        scan order. */
    method GetActiveSubscribers() returns (emails: seq<string>)
      ensures forall k :: k in emails <==> k in table && table[k].status == Active
      ensures Distinct(emails)
    {
      emails := [];
      var rest := table.Keys;
      ghost var seen: set<string> := {};
      while rest != {}
        invariant rest !! seen && rest + seen == table.Keys
        invariant forall k :: k in emails <==> k in Among(table, seen, Active)
        invariant Distinct(emails)
        decreases |rest|
      {
        var k :| k in rest;
        assert k !in emails;
        if table[k].status == Active {
          emails := emails + [k];
        }
        rest := rest - {k};
        seen := seen + {k};
      }
    }

    /** `get_subscriber_count_by_status()`: records with another status
        are not counted. */
    method GetSubscriberCountByStatus() returns (counts: map<string, nat>)
      ensures counts == StatusCounts(table, table.Keys)
    {
      var t := table;
      counts := Counts(0, 0, 0);
      var rest := t.Keys;
      ghost var seen: set<string> := {};
      NothingCounted(t);
      while rest != {}
        invariant rest !! seen && rest + seen == t.Keys
        invariant counts == StatusCounts(t, seen)
        decreases |rest|
      {
        var k :| k in rest;
        CountStep(t, seen, k, counts);
        counts := Tally(counts, t[k].status);
        rest := rest - {k};
        seen := seen + {k};
      }
    }

    /** The body of the import loop for one address, already normalised to
        `email`; looking it up normalises it again, which changes nothing
        (`KeyIdempotent`), so the lookup is a plain membership test. */
    method ImportAddress(email: string, i: nat, counts: ImportCounts, source: string, status: string,
                         now: string, unsubscribeTokenOf: string -> string, failing: set<nat>)
      returns (results: ImportCounts)
      modifies this
      ensures Change(table, results) ==
                ImportOne(Change(old(table), counts), email, i, source, status, now, unsubscribeTokenOf, failing)
    {
      results := counts;
      if email == [] {
        return;
      }
      if i in failing {
        results := results.(failed := results.failed + 1);
      } else if email in table {
        results := results.(skipped := results.skipped + 1);
      } else {
        var item := ImportedRecord(status, source, now, unsubscribeTokenOf(email));
        table := table[email := item];
        results := results.(created := results.created + 1);
      }
    }

    /** `bulk_import_subscribers(emails, source, status)`. */
    method BulkImportSubscribers(emails: seq<string>, source: string, status: string, now: string,
                                 unsubscribeTokenOf: string -> string, failing: set<nat>)
      returns (results: ImportCounts)
      modifies this
      ensures Change(table, results) ==
                Imported(old(table), Keys(emails), source, status, now, unsubscribeTokenOf, failing)
    {
      results := ImportCounts(0, 0, 0);
      var keys := Keys(emails);
      var i := 0;
      while i < |emails|
        invariant 0 <= i <= |emails|
        invariant Change(table, results) ==
                    Imported(old(table), keys[..i], source, status, now, unsubscribeTokenOf, failing)
      {
        ImportedStep(old(table), keys, i, source, status, now, unsubscribeTokenOf, failing);
        var email := keys[i];
        results := ImportAddress(email, i, results, source, status, now, unsubscribeTokenOf, failing);
        i := i + 1;
      }
      assert keys[..|emails|] == keys;
    }
  }
}
