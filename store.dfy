/**
 * The document store, held in memory: the listings collection and the
 * auditLogs collection, each a sequence of records in insertion order.
 */
module Store {
  import opened Types

  class Database {
    var listings: seq<Listing>
    var auditLogs: seq<AuditLog>

    constructor (listings: seq<Listing>, auditLogs: seq<AuditLog>)
      ensures this.listings == listings && this.auditLogs == auditLogs
    {
      this.listings := listings;
      this.auditLogs := auditLogs;
    }

    /** `collection('listings').insertOne(l)`: appends, touches nothing else. */
    method InsertListing(l: Listing)
      modifies this`listings
      ensures listings == old(listings) + [l]
    {
      listings := listings + [l];
    }
  }
}
