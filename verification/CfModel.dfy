/** The ChannelFinder data types (server/recceiver/cf/model.py). */
module CfModel {
  import opened Wrappers

  const HOSTNAME := "hostName"
  const IOC_NAME := "iocName"
  const IOC_ID := "iocid"
  const IOC_IP := "iocIP"
  const PV_STATUS := "pvStatus"
  const TIME := "time"
  const RECCEIVER_ID := "recceiverID"
  const ALIAS := "alias"
  const RECORD_TYPE := "recordType"
  const RECORD_DESC := "recordDesc"
  const CA_PORT := "caPort"
  const PVA_PORT := "pvaPort"

  const ACTIVE := "Active"
  const INACTIVE := "Inactive"

  datatype Prop = Prop(name: string, owner: string, value: string)

  datatype Channel = Channel(name: string, owner: string, props: seq<Prop>)

  /** Runtime state of one connected IOC; `id` is the "host:port" text it is keyed by everywhere. */
  datatype IocInfo = IocInfo(
    id: string, hostname: string, iocName: string, iocIp: string,
    owner: string, time: string, channelcount: int)

  datatype RecordInfo = RecordInfo(
    pvName: string, recordType: Option<string>, infoProps: seq<Prop>, aliases: seq<string>)
}
