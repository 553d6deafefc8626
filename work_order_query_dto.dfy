/** The query of "list work orders" (work-orders/dto/query-work-orders.dto.ts).
    Query-string values are taken as already converted to numbers. */
module WorkOrderQueryDto {
  import opened Common
  import opened Store

  datatype WorkOrderQuery = WorkOrderQuery(
    status: Option<WorkOrderStatus>, customerId: Option<Id>, siteId: Option<Id>,
    assetId: Option<Id>, assignedToUserId: Option<Id>, q: Option<string>,
    page: Option<int>, pageSize: Option<int>)

  /** A page number is at least 1; a page size lies in 1..100 (the status is a
      work-order status by construction, the uuid formats are not checked). */
  predicate ValidQuery(q: WorkOrderQuery) {
    (q.page.None? || q.page.value >= 1)
    && (q.pageSize.None? || 1 <= q.pageSize.value <= 100)
  }
}
