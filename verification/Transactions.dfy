/** The batch a session collects (server/recceiver/recast.py:209-228) and what each message adds to it. */
module Transactions {
  import opened Bytes
  import opened Messages

  datatype Tx = Tx(
    initial: bool, connected: bool,
    recordsToAdd: map<nat, (Text, Text)>,
    clientInfos: map<Text, Text>,
    recordInfosToAdd: map<nat, map<Text, Text>>,
    aliases: map<nat, seq<Text>>,
    recordsToDelete: set<nat>)

  function NewTx(initial: bool, clientInfos: map<Text, Text>): Tx {
    Tx(initial, true, map[], clientInfos, map[], map[], {})
  }

  const DISCONNECT := Tx(false, false, map[], map[], map[], map[], {})

  function InfosOf(pending: map<nat, map<Text, Text>>, id: nat): map<Text, Text> {
    if id in pending then pending[id] else map[]
  }

  function AliasesOf(pending: map<nat, seq<Text>>, id: nat): seq<Text> {
    if id in pending then pending[id] else []
  }

  /** ioc_info, add_record, add_alias, del_record and rec_info without their flushing. */
  function Extend(t: Tx, m: Message): Tx {
    match m
    case AddRecord(id, alias, rt, rn) =>
      if alias then t.(aliases := t.aliases[id := AliasesOf(t.aliases, id) + [rn]])
      else t.(recordsToAdd := t.recordsToAdd[id := (rn, rt)])
    case DelRecord(id) =>
      t.(recordsToAdd := t.recordsToAdd - {id},
         recordsToDelete := t.recordsToDelete + {id},
         recordInfosToAdd := t.recordInfosToAdd - {id})
    case AddInfo(id, k, v) =>
      if id == 0 then t.(clientInfos := t.clientInfos[k := v])
      else t.(recordInfosToAdd := t.recordInfosToAdd[id := InfosOf(t.recordInfosToAdd, id)[k := v]])
    case ClientGreeting(_, _, _) => t
    case Pong(_) => t
    case UploadDone => t
  }
}
