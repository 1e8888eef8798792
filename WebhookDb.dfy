/** db/webhook.rs: every saved webhook gets a key of its own. */
module WebhookDb {
  import opened Entities
  import opened Store

  /** What can go wrong on the way into the store. */
  datatype WriteFault = NoFault | SerialiseFails | InsertFails

  /** `Uuid::new_v4()`: a key no entry of the store has. A v4 UUID is
      random; here freshness is had by construction, with a key longer than
      every key present. */
  method FreshId(db: KvStore) returns (id: string)
    ensures id !in db.entries
  {
    var unseen := db.entries.Keys;
    var longest: nat := 0;
    while unseen != {}
      invariant unseen <= db.entries.Keys
      invariant forall k :: k in db.entries && k !in unseen ==> |k| <= longest
      decreases |unseen|
    {
      var k :| k in unseen;
      if |k| > longest {
        longest := |k|;
      }
      unseen := unseen - {k};
    }
    id := seq(longest + 1, _ => '0');
  }

  /** The effect of one save: with no fault, exactly one entry is added
      under a key that was not there and no other entry changes; with a
      fault the store is as it was. */
  ghost predicate SavedOnce(before: map<string, StoredValue>, after: map<string, StoredValue>,
                            hook: Webhook, fault: WriteFault)
  {
    if fault != NoFault then after == before
    else |after| == |before| + 1 && exists id :: id !in before && after == before[id := WebhookEntry(hook)]
  }

  /** `save_webhook_to_db`: saving the same webhook twice therefore stores
      it twice. */
  method SaveWebhook(db: KvStore, hook: Webhook, fault: WriteFault)
    modifies db
    ensures SavedOnce(old(db.entries), db.entries, hook, fault)
  {
    var id := FreshId(db);
    if fault == SerialiseFails {
      return;
    }
    if fault == InsertFails {
      return;
    }
    db.entries := db.entries[id := WebhookEntry(hook)];
  }
}
