/**
 * The requisition records of types/requisition.ts, as the parser produces
 * them: without the identifiers, upload time and uploader that the database
 * adds afterwards.
 */
module RequisitionTypes {

  /** Where a requisition stands; the parser only ever produces Draft. */
  datatype Status = Draft | RfqSent | QuotationsReceived | Completed

  /** The header of a requisition: one per uploaded file. */
  datatype Requisition = Requisition(
    vesselName: string,
    vesselImo: string,
    portName: string,
    deliveryDate: string,
    currency: string,
    status: Status,
    notes: string)

  /** One line item of a requisition. */
  datatype RequisitionItem = RequisitionItem(
    lineNumber: nat,
    itemName: string,
    itemDescription: string,
    quantity: real,
    unit: string,
    specifications: string)
}
