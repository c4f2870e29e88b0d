/** The items that flow between stages. */
module Items {
  import opened Ids
  import opened Json

  datatype PipelineItem = PipelineItem(
    id: string,
    displayName: string,
    mimeType: string,
    sourceName: string,
    record: Option<Record>,
    stream: Option<string>)

  /** What a source adapter lists. */
  datatype SourceItem = SourceItem(id: string, displayName: string, mimeType: string, path: string)

  datatype StageError = StageError(itemId: string, message: string)

  type ItemResult = Result<seq<PipelineItem>, StageError>

  function ItemIds(items: seq<PipelineItem>): seq<string> {
    seq(|items|, i requires 0 <= i < |items| => items[i].id)
  }
}
