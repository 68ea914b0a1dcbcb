/**
 * The two roles of the page (App.tsx lines 20-25 and 41-54): on the board it
 * registers a list action that opens the page again in a modal, with the
 * list's id and name in the query; loaded with a non-empty `listId` the page
 * switches to modal mode and shows that list.
 */
module AppMode {
  import opened Optional
  import opened Url

  /** The `mode` state of the component. */
  datatype Mode = Setup | Modal

  /** The `listData` state of the component. */
  datatype ListData = ListData(id: string, name: string)

  /** The name shown when the query carries no usable `listName`. */
  const DefaultListName: string := "Lista"

  /** The list the page shows, read from its query parameters: present exactly
      when `listId` is present and non-empty; its name is `listName` when that is
      present and non-empty, `"Lista"` otherwise. */
  function SelectedList(params: seq<Param>): (r: Option<ListData>)
    ensures r.Some? <==> Get(params, "listId").Some? && Get(params, "listId").value != ""
    ensures r.Some? ==> r.value.id == Get(params, "listId").value && r.value.name != ""
    ensures r.Some? && Get(params, "listName").Some? && Get(params, "listName").value != "" ==>
      r.value.name == Get(params, "listName").value
    ensures r.Some? && (Get(params, "listName").None? || Get(params, "listName").value == "") ==>
      r.value.name == DefaultListName
  {
    match Get(params, "listId")
    case None => None
    case Some(id) =>
      if id == "" then None
      else
        var name := match Get(params, "listName")
          case Some(n) => if n == "" then DefaultListName else n
          case None => DefaultListName;
        Some(ListData(id, name))
  }

  /** The state of the `App` component that the mount effect sets. */
  class AppView {
    var mode: Mode
    var listData: Option<ListData>

    /** Modal mode and list data go together, and the list data has an id and a name. */
    ghost predicate Valid()
      reads this
    {
      && (mode == Modal <==> listData.Some?)
      && (listData.Some? ==> listData.value.id != "" && listData.value.name != "")
    }

    /** The initial state: `useState('setup')` and `useState(null)`. */
    constructor ()
      ensures Valid() && mode == Setup && listData == None
    {
      mode := Setup;
      listData := None;
    }

    /** The mount effect: with a non-empty `listId` it sets modal mode and the
        list data; otherwise it leaves the state alone. */
    method LoadParams(params: seq<Param>)
      requires Valid()
      modifies this
      ensures Valid()
      ensures SelectedList(params).Some? ==> mode == Modal && listData == SelectedList(params)
      ensures SelectedList(params).None? ==> mode == old(mode) && listData == old(listData)
    {
      var listId := Get(params, "listId");
      if listId.Some? && listId.value != "" {
        mode := Modal;
        var listName := Get(params, "listName");
        var name := if listName.Some? && listName.value != "" then listName.value else DefaultListName;
        listData := Some(ListData(listId.value, name));
      }
    }
  }

  /** What the list action asks the host to open (App.tsx lines 21-25). */
  datatype ModalRequest = ModalRequest(title: string, url: string, height: nat)

  /** The modal request for `list`, built on the base URL of the board page. */
  function ListActionModal(boardHref: string, list: ListData, encode: string -> string): ModalRequest {
    ModalRequest("Ordenando: " + list.name, ModalUrl(BaseUrl(boardHref), list.id, list.name, encode), 400)
  }

  /** The two halves fit: the page opened by the list action selects modal mode for
      the same list, with the name defaulting to `"Lista"` when the list name is
      empty. The assumptions are those of `ModalUrlRoundTrip`, for a non-empty id. */
  lemma ListActionOpensModal(boardHref: string, list: ListData,
                             encode: string -> string, decode: string -> string)
    requires list.id != ""
    requires '&' !in list.id && '#' !in list.id
    requires '&' !in encode(list.name) && '#' !in encode(list.name)
    requires decode("listId") == "listId" && decode("listName") == "listName"
    requires decode(list.id) == list.id && decode(encode(list.name)) == list.name
    ensures var url := ListActionModal(boardHref, list, encode).url;
      SelectedList(ParseQuery(QueryOf(url), decode))
        == Some(ListData(list.id, if list.name == "" then DefaultListName else list.name))
  {
    BaseUrlShape(boardHref);
    ModalUrlRoundTrip(BaseUrl(boardHref), list.id, list.name, encode, decode);
  }
}
