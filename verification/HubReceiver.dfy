/** The handler of a hub's consumer. */
module HubReceiver {
  import opened Models
  import opened Registry
  import opened Routing
  import opened Distributor
  import opened HubNode

  class HubReceiver {
    const hubInstanceId: string
    const distributor: EventDistributor
    var messagesReceived: int
    var messagesProcessed: int
    var messagesFailed: int

    constructor (hubInstanceId: string, distributor: EventDistributor)
      ensures this.hubInstanceId == hubInstanceId && this.distributor == distributor
      ensures messagesReceived == messagesProcessed == messagesFailed == 0
    {
      this.hubInstanceId, this.distributor := hubInstanceId, distributor;
      messagesReceived, messagesProcessed, messagesFailed := 0, 0, 0;
    }

    /** A message without a time to live never expires. */
    method IsMessageExpired(msg: Message, now: int) returns (expired: bool)
      ensures expired <==> msg.ttl > 0 && now - msg.createdAt > msg.ttl
      ensures expired <==> Expired(msg, now)
    {
      if msg.ttl <= 0 {
        return false;
      }
      return now > msg.createdAt + msg.ttl;
    }

    /**
       Every message counts as received. One that another hub stamped, and that has no time to live or is not
       older than it, also counts as processed and starts the deliveries of `Spawned`. No message fails.
     */
    method ProcessInternalMessage(msg: Message, now: int) returns (failed: bool, spawned: seq<ReceiverObject>)
      requires distributor.registry.Valid() && (this as object) !in distributor.registry.Repr
      modifies this
      ensures !failed && messagesFailed == old(messagesFailed)
      ensures messagesReceived == old(messagesReceived) + 1
      ensures Wanted(hubInstanceId, msg, now) <==>
              msg.hubId != hubInstanceId && (msg.ttl <= 0 || now <= msg.createdAt + msg.ttl)
      ensures messagesProcessed == old(messagesProcessed) + if Wanted(hubInstanceId, msg, now) then 1 else 0
      ensures !Wanted(hubInstanceId, msg, now) ==> spawned == []
      ensures Wanted(hubInstanceId, msg, now) ==>
                var expected := Spawned(distributor.registry.Table(), msg.targets, msg.event);
                |spawned| == |expected| && forall i | 0 <= i < |spawned| :: spawned[i].value == expected[i]
    {
      ghost var t := distributor.registry.Table();
      failed, spawned := false, [];
      messagesReceived := messagesReceived + 1;
      if msg.hubId == hubInstanceId {
        return;
      }
      var expired := IsMessageExpired(msg, now);
      if expired {
        return;
      }
      distributor.registry.Isolated();
      failed, spawned := distributor.DistributeToReceivers(msg);
      messagesFailed := messagesFailed + if failed then 1 else 0;
      messagesProcessed := messagesProcessed + if failed then 0 else 1;
    }
  }
}
