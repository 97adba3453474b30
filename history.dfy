/** `history.js`: the history page's cached list of saved research, its
    table rendering, and the single edit slot of its modal.  The backend's
    answers are parameters; the requests the page sends are recorded. */
module History {
  import opened Wrappers
  import opened Text

  /** An entry id.  The page compares ids with `==`, so the number in the
      JSON and the string read back from the table agree; one type stands
      for both. */
  type Id = int

  /** One saved research entry as the backend lists it; a missing or null
      field is `None`.  The date is the ISO text of the JSON. */
  datatype Entry = Entry(id: Id, title: Option<string>, content: Option<string>, date: Option<string>)

  // ---------------------------------------------------------------------
  // Rendering

  const PreviewLength := 80
  const Untitled := "Untitled"
  const NoContent := "No content"
  const NoDate := "-"

  /** The content column: the text itself when it has at most 80
      characters, otherwise its first 80 characters and "...". */
  function Preview(content: string): (r: string)
    ensures |content| <= PreviewLength ==> r == content
    ensures |content| > PreviewLength ==> r == content[..PreviewLength] + "..."
  {
    if |content| > PreviewLength then content[..PreviewLength] + "..." else content
  }

  /** The preview never exceeds 83 characters and always begins with the
      content's first (up to) 80 characters. */
  lemma PreviewBounds(content: string)
    ensures |Preview(content)| <= PreviewLength + 3
    ensures var k := if |content| < PreviewLength then |content| else PreviewLength;
      content[..k] <= Preview(content)
  {
  }

  /** `item.title || 'Untitled'`. */
  function TitleCell(title: Option<string>): (r: string)
    ensures r == Untitled <==> title.None? || title.value == "" || title.value == Untitled
    ensures title.Some? && title.value != "" ==> r == title.value
  {
    if title.None? || title.value == "" then Untitled else title.value
  }

  /** `item.content ? preview : 'No content'`. */
  function ContentCell(content: Option<string>): (r: string)
    ensures content.None? || content.value == "" ==> r == NoContent
    ensures content.Some? && content.value != "" ==> r == Preview(content.value)
  {
    if content.None? || content.value == "" then NoContent else Preview(content.value)
  }

  /** `item.date || '-'`. */
  function DateCell(date: Option<string>): (r: string)
    ensures date.None? || date.value == "" ==> r == NoDate
    ensures date.Some? && date.value != "" ==> r == date.value
  {
    if date.None? || date.value == "" then NoDate else date.value
  }

  /** A table row: its `data-id` and its three text cells. */
  datatype Row = Row(id: Id, title: string, content: string, date: string)

  function RenderRow(e: Entry): (r: Row)
    ensures r.id == e.id
  {
    Row(e.id, TitleCell(e.title), ContentCell(e.content), DateCell(e.date))
  }

  /** What `renderTable` puts in the table body. */
  datatype Table = NoEntries | Rows(rows: seq<Row>)

  /** `renderTable`: the placeholder row for an empty list, otherwise one
      row per entry, in order. */
  function Render(data: seq<Entry>): (t: Table)
    ensures t.NoEntries? <==> data == []
    ensures t.Rows? ==> |t.rows| == |data| && forall k :: 0 <= k < |data| ==> t.rows[k] == RenderRow(data[k])
  {
    if data == [] then NoEntries else Rows(seq(|data|, k requires 0 <= k < |data| => RenderRow(data[k])))
  }

  /** The title cell `saveEdit` writes into the edited row. */
  function EditedTitleCell(title: string): string {
    if title == "" then Untitled else title
  }

  /** The content cell `saveEdit` writes into the edited row. */
  function EditedContentCell(content: string): string {
    if |content| > PreviewLength then content[..PreviewLength] + "..." else if content == "" then NoContent else content
  }

  /** The row `saveEdit` patches shows what `renderTable` would show for
      the patched entry. */
  lemma EditedRowMatchesRender(e: Entry, title: string, content: string)
    ensures var r := RenderRow(e.(title := Some(title), content := Some(content)));
      r.title == EditedTitleCell(title) && r.content == EditedContentCell(content)
  {
  }

  // ---------------------------------------------------------------------
  // The cached list

  /** `findIndex(x => x.id == id)`. */
  function FindIndex(data: seq<Entry>, id: Id): (r: Option<nat>)
    ensures r.None? <==> forall k :: 0 <= k < |data| ==> data[k].id != id
    ensures r.Some? ==> r.value < |data| && data[r.value].id == id
                        && forall k :: 0 <= k < r.value ==> data[k].id != id
  {
    if data == [] then None
    else if data[0].id == id then Some(0)
    else match FindIndex(data[1..], id)
      case None => None
      case Some(i) => Some(i + 1)
  }

  /** `filter(x => x.id != id)`. */
  function Without(data: seq<Entry>, id: Id): (r: seq<Entry>)
    ensures |r| <= |data|
    ensures forall e :: e in r <==> e in data && e.id != id
  {
    if data == [] then []
    else if data[0].id == id then Without(data[1..], id)
    else [data[0]] + Without(data[1..], id)
  }

  /** Removing an id distributes over concatenation: the remaining entries
      keep their order. */
  lemma {:induction false} WithoutConcat(a: seq<Entry>, b: seq<Entry>, id: Id)
    ensures Without(a + b, id) == Without(a, id) + Without(b, id)
  {
    if a == [] {
      assert a + b == b;
    } else {
      assert (a + b)[0] == a[0];
      assert (a + b)[1..] == a[1..] + b;
      WithoutConcat(a[1..], b, id);
    }
  }

  /** Removing an id that no entry carries changes nothing. */
  lemma {:induction false} WithoutAbsent(data: seq<Entry>, id: Id)
    requires forall k :: 0 <= k < |data| ==> data[k].id != id
    ensures Without(data, id) == data
  {
    if data != [] {
      WithoutAbsent(data[1..], id);
    }
  }

  /** Removing the same id twice is removing it once. */
  lemma WithoutIdempotent(data: seq<Entry>, id: Id)
    ensures Without(Without(data, id), id) == Without(data, id)
  {
    var r := Without(data, id);
    forall k | 0 <= k < |r| ensures r[k].id != id {
      assert r[k] in r;
    }
    WithoutAbsent(r, id);
  }

  // ---------------------------------------------------------------------
  // The page

  /** A request the page sent to the backend. */
  datatype Call =
    | List
    | Search(query: string)
    | FilterDates(start: string, end: string)
    | Update(id: Id, title: string, content: string)
    | Delete(id: Id)

  /** The backend's answer to a list request: the entries, or any failure
      (an error status, no answer, or a body that is not JSON). */
  datatype ListReply = Listed(entries: seq<Entry>) | ListFailed

  /** The backend's answer to the update request. */
  datatype UpdateReply = Updated | UpdateRejected(body: string) | UpdateUnreachable(message: string)

  datatype Level = SuccessAlert | WarningAlert | ErrorAlert

  /** A transient alert. */
  datatype Alert = Alert(message: string, level: Level)

  /** What the edit modal shows: the entry's title and content, or an
      alert when the id is not in the list. */
  datatype EditForm = Form(title: string, content: string) | NotFound(alert: Alert)

  const LoadFailedAlert := Alert("Failed to load research", ErrorAlert)
  const SearchFailedAlert := Alert("Search failed", ErrorAlert)
  const FilterFailedAlert := Alert("Date filter failed", ErrorAlert)
  const BothDatesAlert := Alert("Select both start and end dates", WarningAlert)
  const NotFoundAlert := Alert("Entry not found", WarningAlert)
  const NoEntryAlert := Alert("No entry selected", WarningAlert)
  const UpdatedAlert := Alert("Updated successfully", SuccessAlert)
  const DeletedAlert := Alert("Deleted successfully", SuccessAlert)
  const DeleteFailedAlert := Alert("Failed to delete", ErrorAlert)

  /** The alert of a failed update. */
  function UpdateError(reply: UpdateReply): (a: Alert)
    requires !reply.Updated?
    ensures a.level == ErrorAlert
    ensures reply.UpdateRejected? ==> a.message == "Update failed: " + reply.body
    ensures reply.UpdateUnreachable? ==> a.message == reply.message
  {
    match reply
    case UpdateRejected(body) => Alert("Update failed: " + body, ErrorAlert)
    case UpdateUnreachable(m) => Alert(m, ErrorAlert)
  }

  /** The list after a confirmed edit: the first entry with the id gets
      the new title and content, every other entry is kept as it was, and
      a list without the id is unchanged. */
  function Patched(data: seq<Entry>, id: Id, title: string, content: string): (r: seq<Entry>)
    ensures |r| == |data|
    ensures FindIndex(data, id).None? ==> r == data
    ensures FindIndex(data, id).Some? ==>
      var i := FindIndex(data, id).value;
      && r[i] == data[i].(title := Some(title), content := Some(content))
      && forall k :: 0 <= k < |r| && k != i ==> r[k] == data[k]
  {
    match FindIndex(data, id)
    case None => data
    case Some(i) => data[i := data[i].(title := Some(title), content := Some(content))]
  }

  /** The page: the module-level `currentData` and `currentEntryId`, and the
      requests sent. */
  class HistoryPage {
    var currentData: seq<Entry>
    var currentEntryId: Option<Id>
    var calls: seq<Call>

    constructor ()
      ensures currentData == [] && currentEntryId.None? && calls == []
    {
      currentData := [];
      currentEntryId := None;
      calls := [];
    }

    /** Replace the cached list with a list reply; a failure keeps it. */
    method Replace(reply: ListReply, failure: Alert) returns (alert: Option<Alert>)
      modifies this`currentData
      ensures reply.Listed? ==> currentData == reply.entries && alert.None?
      ensures reply.ListFailed? ==> currentData == old(currentData) && alert == Some(failure)
    {
      match reply {
        case Listed(entries) =>
          currentData := entries;
          alert := None;
        case ListFailed =>
          alert := Some(failure);
      }
    }

    /** `loadHistory`. */
    method LoadHistory(reply: ListReply) returns (alert: Option<Alert>)
      modifies this`currentData, this`calls
      ensures calls == old(calls) + [List]
      ensures reply.Listed? ==> currentData == reply.entries && alert.None?
      ensures reply.ListFailed? ==> currentData == old(currentData) && alert == Some(LoadFailedAlert)
    {
      calls := calls + [List];
      alert := Replace(reply, LoadFailedAlert);
    }

    /** `searchByKeyword`: an empty query (after trimming) reloads the
        whole list. */
    method SearchByKeyword(query: string, reply: ListReply) returns (alert: Option<Alert>)
      modifies this`currentData, this`calls
      ensures JsTrim(query) == "" ==> calls == old(calls) + [List]
      ensures JsTrim(query) != "" ==> calls == old(calls) + [Search(JsTrim(query))]
      ensures reply.Listed? ==> currentData == reply.entries && alert.None?
      ensures reply.ListFailed? ==> currentData == old(currentData)
      ensures reply.ListFailed? ==>
        alert == Some(if JsTrim(query) == "" then LoadFailedAlert else SearchFailedAlert)
    {
      var q := JsTrim(query);
      if q == "" {
        alert := LoadHistory(reply);
        return;
      }
      calls := calls + [Search(q)];
      alert := Replace(reply, SearchFailedAlert);
    }

    /** `filterByDate`: both dates are needed before anything is sent. */
    method FilterByDate(start: string, end: string, reply: ListReply) returns (alert: Option<Alert>)
      modifies this`currentData, this`calls
      ensures start == "" || end == "" ==>
        alert == Some(BothDatesAlert) && calls == old(calls) && currentData == old(currentData)
      ensures start != "" && end != "" ==>
        && calls == old(calls) + [FilterDates(start, end)]
        && (reply.Listed? ==> currentData == reply.entries && alert.None?)
        && (reply.ListFailed? ==> currentData == old(currentData) && alert == Some(FilterFailedAlert))
    {
      if start == "" || end == "" {
        return Some(BothDatesAlert);
      }
      calls := calls + [FilterDates(start, end)];
      alert := Replace(reply, FilterFailedAlert);
    }

    /** `showEditModal`: an id found in the list takes the edit slot and its
        entry fills the form; an unknown id changes nothing. */
    method ShowEditModal(id: Id) returns (form: EditForm)
      modifies this`currentEntryId
      ensures FindIndex(currentData, id).None? ==>
        form == NotFound(NotFoundAlert) && currentEntryId == old(currentEntryId)
      ensures FindIndex(currentData, id).Some? ==>
        var e := currentData[FindIndex(currentData, id).value];
        && currentEntryId == Some(id)
        && form == Form(if e.title.Some? then e.title.value else "",
                        if e.content.Some? then e.content.value else "")
    {
      var found := FindIndex(currentData, id);
      if found.None? {
        return NotFound(NotFoundAlert);
      }
      var e := currentData[found.value];
      currentEntryId := Some(id);
      form := Form(if e.title.Some? then e.title.value else "",
                   if e.content.Some? then e.content.value else "");
    }

    /** `closeModal`. */
    method CloseModal()
      modifies this`currentEntryId
      ensures currentEntryId.None?
    {
      currentEntryId := None;
    }

    /** `saveEdit`, with the raw texts of the two form fields.  A confirmed
        update patches the title and content of the first entry with the
        edited id and closes the modal. */
    method SaveEdit(rawTitle: string, rawContent: string, reply: UpdateReply) returns (alert: Alert)
      modifies this
      ensures old(currentEntryId).None? ==> alert == NoEntryAlert && unchanged(this)
      ensures old(currentEntryId).Some? ==>
        calls == old(calls) + [Update(old(currentEntryId).value, JsTrim(rawTitle), JsTrim(rawContent))]
      ensures old(currentEntryId).Some? && !reply.Updated? ==>
        && alert == UpdateError(reply)
        && currentData == old(currentData) && currentEntryId == old(currentEntryId)
      ensures old(currentEntryId).Some? && reply.Updated? ==>
        && alert == UpdatedAlert && currentEntryId.None?
        && currentData == Patched(old(currentData), old(currentEntryId).value, JsTrim(rawTitle), JsTrim(rawContent))
    {
      var title := JsTrim(rawTitle);
      var content := JsTrim(rawContent);
      if currentEntryId.None? {
        return NoEntryAlert;
      }
      alert := Submit(currentEntryId.value, title, content, reply);
    }

    /** The `PUT` of an edit with trimmed fields, and what `saveEdit` does
        with the answer. */
    method Submit(id: Id, title: string, content: string, reply: UpdateReply) returns (alert: Alert)
      modifies this`calls, this`currentData, this`currentEntryId
      ensures calls == old(calls) + [Update(id, title, content)]
      ensures !reply.Updated? ==>
        alert == UpdateError(reply) && currentData == old(currentData) && currentEntryId == old(currentEntryId)
      ensures reply.Updated? ==>
        alert == UpdatedAlert && currentEntryId.None? && currentData == Patched(old(currentData), id, title, content)
    {
      calls := calls + [Update(id, title, content)];
      if !reply.Updated? {
        return UpdateError(reply);
      }
      currentData := Patched(currentData, id, title, content);
      CloseModal();
      alert := UpdatedAlert;
    }

    /** `deleteEntry`: without confirmation nothing happens; a confirmed,
        successful delete drops every entry with that id. */
    method DeleteEntry(id: Id, confirmed: bool, succeeded: bool) returns (alert: Option<Alert>)
      modifies this`currentData, this`calls
      ensures !confirmed ==> alert.None? && calls == old(calls) && currentData == old(currentData)
      ensures confirmed ==> calls == old(calls) + [Delete(id)]
      ensures confirmed && succeeded ==> currentData == Without(old(currentData), id) && alert == Some(DeletedAlert)
      ensures confirmed && !succeeded ==> currentData == old(currentData) && alert == Some(DeleteFailedAlert)
    {
      if !confirmed {
        return None;
      }
      calls := calls + [Delete(id)];
      if !succeeded {
        return Some(DeleteFailedAlert);
      }
      currentData := Without(currentData, id);
      alert := Some(DeletedAlert);
    }
  }
}
