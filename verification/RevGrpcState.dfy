/** The shared tables of the reverse-gRPC server as the object they are (RevGrpcState in src/connector/rev_grpc.rs). */
module RevGrpcState {
  import opened Common
  import opened Rendezvous

  datatype ManagerOutcome = InvalidAuth | AlreadyExists | Connected
  datatype ClaimOutcome = MissingConnId | UnknownConnId | InvalidClaim | Claim(pending: Pending)

  class Tables {
    var managers: map<string, nat>
    var pendingStreams: map<string, Pending>
    var pendingUdp: map<string, Pending>

    constructor ()
      ensures managers == map[] && Represents(map[])
    {
      managers, pendingStreams, pendingUdp := map[], map[], map[];
    }

    /** The entry of a slot of the step machine's pending table. */
    function At(slot: Slot): Option<Pending>
      reads this
    {
      var table := if slot.kind.Tcp? then pendingStreams else pendingUdp;
      if slot.connId in table then Some(table[slot.connId]) else None
    }

    /** The two tables together are the step machine's one table. */
    ghost predicate Represents(pending: map<Slot, Pending>)
      reads this
    {
      forall slot: Slot :: At(slot) == if slot in pending then Some(pending[slot]) else None
    }

    /** The handler of manager: check the password of the tag, then insert unless the tag is taken. */
    method Manager(pwMap: map<string, Option<string>>, tag: string, auth: string, session: nat) returns (r: ManagerOutcome)
      modifies this`managers
      ensures r.InvalidAuth? <==> tag in pwMap && pwMap[tag].Some? && auth != pwMap[tag].value
      ensures r.InvalidAuth? <==> !PasswordOk(TagPassword(Init(pwMap), tag), auth)
      ensures r.AlreadyExists? ==> tag in old(managers)
      ensures r.Connected? ==> tag !in old(managers) && managers == old(managers)[tag := session]
      ensures !r.Connected? ==> managers == old(managers)
    {
      if tag in pwMap && pwMap[tag].Some? && auth != pwMap[tag].value {
        return InvalidAuth;
      }
      if tag in managers {
        return AlreadyExists;
      }
      managers := managers[tag := session];
      return Connected;
    }

    /** The drain task of a session ends. */
    method Disconnect(tag: string)
      modifies this`managers
      ensures managers == old(managers) - {tag}
    {
      managers := managers - {tag};
    }

    method Register(slot: Slot, pending: Pending)
      modifies this`pendingStreams, this`pendingUdp
      ensures forall m | old(Represents(m)) :: Represents(m[slot := pending])
    {
      if slot.kind.Tcp? {
        pendingStreams := pendingStreams[slot.connId := pending];
      } else {
        pendingUdp := pendingUdp[slot.connId := pending];
      }
    }

    method Unregister(slot: Slot)
      modifies this`pendingStreams, this`pendingUdp
      ensures forall m | old(Represents(m)) :: Represents(m - {slot})
      ensures forall k: Slot :: At(k) == if k == slot then None else old(At(k))
    {
      if slot.kind.Tcp? {
        pendingStreams := pendingStreams - {slot.connId};
      } else {
        pendingUdp := pendingUdp - {slot.connId};
      }
    }

    /**
     * The handler of stream and udp up to its delivery, uninterrupted. A wrong password still uses the
     * entry up: the claim comes first, so one bad caller that knows the conn_id ends that connect.
     */
    method ClaimEntry(kind: Kind, auth: string, connId: Option<string>) returns (r: ClaimOutcome)
      modifies this`pendingStreams, this`pendingUdp
      ensures connId.None? || connId == Some("") ==> r == MissingConnId && unchanged(this)
      ensures connId.Some? && connId.value != "" ==>
        var slot := Slot(kind, connId.value);
        && (forall m | old(Represents(m)) :: Represents(m - {slot}))
        && (forall k: Slot :: At(k) == if k == slot then None else old(At(k)))
        && (old(At(slot)).None? ==> r == UnknownConnId)
        && (old(At(slot)).Some? ==>
            r == if PasswordOk(old(At(slot)).value.pw, auth) then Claim(old(At(slot)).value) else InvalidClaim)
        && (old(At(slot)).Some? ==>
            (r.InvalidClaim? <==> old(At(slot)).value.pw.Some? && auth != old(At(slot)).value.pw.value))
    {
      var id := if connId.Some? then connId.value else "";
      if id == "" {
        return MissingConnId;
      }
      var entry := At(Slot(kind, id));
      if entry.None? {
        return UnknownConnId;
      }
      Unregister(Slot(kind, id));
      if entry.value.pw.Some? && auth != entry.value.pw.value {
        return InvalidClaim;
      }
      return Claim(entry.value);
    }
  }
}
