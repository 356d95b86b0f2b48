/** The parcel registry's records: parcels, their trace log and abnormal records. */
module PackageModel {
  import opened Common

  // Parcel statuses.
  const Collected := "collected"
  const Sorted := "sorted"
  const Abnormal := "abnormal"
  const Transporting := "transporting"
  const Arrived := "arrived"
  const Delivering := "delivering"
  const Delivered := "delivered"
  const TransportAbnormal := "transport_abnormal"
  const DeliveryAbnormal := "delivery_abnormal"

  /** A parcel; weight and dimensions are opaque measurements. */
  datatype Package = Package(
    packageID: string,
    senderName: string,
    senderPhone: string,
    senderAddress: string,
    receiverName: string,
    receiverPhone: string,
    receiverAddress: string,
    receiverProvince: string,
    receiverCity: string,
    receiverDistrict: string,
    weight: real,
    length: real,
    width: real,
    height: real,
    status: string,
    abnormalReason: string,
    abnormalHandler: string,
    updatedAt: Time)

  /** One entry of a parcel's trace log. */
  datatype PackageTrace = PackageTrace(
    traceID: string,
    packageID: string,
    nodeType: string,
    nodeName: string,
    nodeAddress: string,
    longitude: real,
    latitude: real,
    operationTime: Time,
    operator: string,
    remark: string)

  /** A recorded exception against a parcel. */
  datatype AbnormalRecord = AbnormalRecord(
    recordID: string,
    packageID: string,
    abnormalType: string,
    abnormalReason: string,
    processingMethod: string,
    processor: string,
    processingTime: Time,
    status: string)
}
