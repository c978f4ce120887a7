/** The users page of the console (`src/pages/Users.jsx`): the roster and
    folder list mirrored from the server, the folder-filtered view shown in
    the table, the modal flags, and the handlers that post to the server and
    refresh. Every request's outcome is an input: `Some`/`true` for a
    response, `None`/`false` for a rejected promise. */
module UsersPage {
  import opened Wrappers
  import opened Seqs
  import opened Records
  import UsersTable

  // ---------------------------------------------------------------------
  // The folder filter

  /** `allUsers.filter((u) => u.folder_id === folderId)`: exactly the users
      of the folder, each as often as in the roster, in roster order. A
      user without a folder is in no folder's view. */
  function FolderMembers(all: seq<User>, folderId: FolderId): (view: seq<User>)
    ensures forall u :: u in view <==> u in all && u.folderId == Some(folderId)
    ensures forall u: User :: u.folderId == Some(folderId) ==> Count(view, u) == Count(all, u)
    ensures IsSubsequence(view, all)
  {
    if all == [] then []
    else if all[0].folderId == Some(folderId) then [all[0]] + FolderMembers(all[1..], folderId)
    else FolderMembers(all[1..], folderId)
  }

  /** The view the filter effect derives: the whole roster for the empty
      folder id ("All"), otherwise the folder's members. */
  function FilterByFolder(all: seq<User>, folderId: FolderId): (view: seq<User>)
    ensures folderId == "" ==> view == all
    ensures folderId != "" ==> view == FolderMembers(all, folderId)
    ensures folderId != "" ==> forall u :: u in view <==> u in all && u.folderId == Some(folderId)
    ensures IsSubsequence(view, all)
  {
    if folderId == "" then (SubsequenceRefl(all); all) else FolderMembers(all, folderId)
  }

  /** The filtered view never shows more users than the roster holds. */
  lemma FilterNoLonger(all: seq<User>, folderId: FolderId)
    ensures |FilterByFolder(all, folderId)| <= |all|
  {
    SubsequenceLength(FilterByFolder(all, folderId), all);
  }

  // ---------------------------------------------------------------------
  // Requests and the page state

  /** The requests the page sends. */
  datatype Request =
    | CreateUser(form: UserForm)                                   // POST /user/create
    | UpdateUser(form: UserForm)                                   // POST /user/update
    | DeleteUser(userId: UserId)                                   // DELETE /user/delete/:id
    | BatchCall(userIds: seq<UserId>)                              // POST /call/batch-call
    | ScheduleBatchCall(userIds: seq<UserId>, scheduleTime: string) // POST /call/batch-call/schedule

  /** A snapshot of every state field of the page. */
  datatype PageState = PageState(
    loading: bool,
    allUsers: seq<User>,
    filteredUsers: seq<User>,
    folders: seq<Folder>,
    selectedFolderId: FolderId,
    selectedUser: Option<User>,
    selectedUserIds: seq<UserId>,
    showViewModal: bool,
    showAddEditModal: bool,
    showDeleteModal: bool,
    isEditMode: bool,
    showConfirmCallModal: bool,
    showScheduleModal: bool,
    showUploadModal: bool)

  /** `fetchData` followed by the filter effect: when both fetches answer,
      roster and folders are replaced together and the view is re-derived;
      when either fails, both are kept. Loading ends false either way, and
      nothing else (selection, filter, modals) changes. */
  function Refreshed(s: PageState, usersRes: Option<seq<User>>, foldersRes: Option<seq<Folder>>): (r: PageState)
    ensures !r.loading
    ensures usersRes.Some? && foldersRes.Some? ==>
              r.allUsers == usersRes.value && r.folders == foldersRes.value
              && r.filteredUsers == FilterByFolder(usersRes.value, s.selectedFolderId)
    ensures usersRes.None? || foldersRes.None? ==>
              r.allUsers == s.allUsers && r.folders == s.folders && r.filteredUsers == s.filteredUsers
    ensures r.(loading := s.loading, allUsers := s.allUsers, folders := s.folders, filteredUsers := s.filteredUsers) == s
  {
    if usersRes.Some? && foldersRes.Some? then
      s.(allUsers := usersRes.value, folders := foldersRes.value,
         filteredUsers := FilterByFolder(usersRes.value, s.selectedFolderId), loading := false)
    else
      s.(loading := false)
  }

  class Page {
    var loading: bool
    var allUsers: seq<User>
    var filteredUsers: seq<User>
    var folders: seq<Folder>
    var selectedFolderId: FolderId
    var selectedUser: Option<User>
    var selectedUserIds: seq<UserId>
    var showViewModal: bool
    var showAddEditModal: bool
    var showDeleteModal: bool
    var isEditMode: bool
    var showConfirmCallModal: bool
    var showScheduleModal: bool
    var showUploadModal: bool

    function State(): PageState
      reads this
    {
      PageState(loading, allUsers, filteredUsers, folders, selectedFolderId, selectedUser,
                selectedUserIds, showViewModal, showAddEditModal, showDeleteModal, isEditMode,
                showConfirmCallModal, showScheduleModal, showUploadModal)
    }

    /** Between renders the filter effect has run: the shown view is the
        one derived from the roster and the chosen folder. */
    predicate Valid()
      reads this
    {
      filteredUsers == FilterByFolder(allUsers, selectedFolderId)
    }

    /** The initial state: loading, nothing fetched, "All" chosen, no
        selection, every modal closed. */
    constructor ()
      ensures Valid()
      ensures State() == PageState(true, [], [], [], "", None, [], false, false, false, false, false, false, false)
    {
      loading := true;
      allUsers, filteredUsers, folders := [], [], [];
      selectedFolderId := "";
      selectedUser := None;
      selectedUserIds := [];
      showViewModal, showAddEditModal, showDeleteModal := false, false, false;
      isEditMode := false;
      showConfirmCallModal, showScheduleModal, showUploadModal := false, false, false;
    }

    /** `fetchData`, run on mount, by the reload button and after each
        successful post. */
    method FetchData(usersRes: Option<seq<User>>, foldersRes: Option<seq<Folder>>)
      requires Valid()
      modifies this
      ensures Valid()
      ensures State() == Refreshed(old(State()), usersRes, foldersRes)
    {
      loading := true;
      if usersRes.Some? && foldersRes.Some? {
        allUsers := usersRes.value;
        folders := foldersRes.value;
        loading := false;
        filteredUsers := FilterByFolder(allUsers, selectedFolderId);
      } else {
        loading := false;
      }
    }

    /** `filterUsers(folderId = "")`: choose a folder tab, or "All" when
        called without an argument; the filter effect re-derives the view. */
    method FilterUsers(folderId: FolderId := "")
      requires Valid()
      modifies this
      ensures Valid()
      ensures State() == old(State()).(selectedFolderId := folderId,
                                        filteredUsers := FilterByFolder(old(allUsers), folderId))
    {
      selectedFolderId := folderId;
      filteredUsers := FilterByFolder(allUsers, selectedFolderId);
    }

    /** The table's `onSelectionChange` callback. */
    method HandleSelectionChange(ids: seq<UserId>)
      modifies this
      ensures State() == old(State()).(selectedUserIds := ids)
    {
      selectedUserIds := ids;
    }

    /** The "Add" button: a blank form in create mode. */
    method OpenAdd()
      modifies this
      ensures State() == old(State()).(selectedUser := None, isEditMode := false, showAddEditModal := true)
    {
      selectedUser := None;
      isEditMode := false;
      showAddEditModal := true;
    }

    /** The table's `onEdit` callback: the form for `u` in edit mode. */
    method OpenEdit(u: User)
      modifies this
      ensures State() == old(State()).(selectedUser := Some(u), isEditMode := true, showAddEditModal := true)
    {
      selectedUser := Some(u);
      isEditMode := true;
      showAddEditModal := true;
    }

    /** The table's `onViewInstructions` callback. */
    method OpenView(u: User)
      modifies this
      ensures State() == old(State()).(selectedUser := Some(u), showViewModal := true)
    {
      selectedUser := Some(u);
      showViewModal := true;
    }

    /** The page's `onDelete` callback (the table never invokes it). */
    method OpenDelete(u: User)
      modifies this
      ensures State() == old(State()).(selectedUser := Some(u), showDeleteModal := true)
    {
      selectedUser := Some(u);
      showDeleteModal := true;
    }

    /** The "Place Call" button: the confirm dialog opens only when some
        user is selected; otherwise the operator is alerted and nothing
        changes. */
    method PlaceCallClicked() returns (alerted: bool)
      modifies this
      ensures alerted <==> old(selectedUserIds) == []
      ensures State() == if alerted then old(State()) else old(State()).(showConfirmCallModal := true)
    {
      alerted := |selectedUserIds| == 0;
      if !alerted {
        showConfirmCallModal := true;
      }
    }

    /** The "Schedule" button, guarded in the same way. */
    method ScheduleClicked() returns (alerted: bool)
      modifies this
      ensures alerted <==> old(selectedUserIds) == []
      ensures State() == if alerted then old(State()) else old(State()).(showScheduleModal := true)
    {
      alerted := |selectedUserIds| == 0;
      if !alerted {
        showScheduleModal := true;
      }
    }

    /** `handleSaveUser`: posts to update in edit mode and to create
        otherwise; only when the post succeeds is the form closed and the
        roster refreshed. */
    method HandleSaveUser(form: UserForm, postOk: bool,
                          usersRes: Option<seq<User>>, foldersRes: Option<seq<Folder>>)
      returns (request: Request)
      requires Valid()
      modifies this
      ensures Valid()
      ensures request == if old(isEditMode) then UpdateUser(form) else CreateUser(form)
      ensures State() == if postOk then Refreshed(old(State()).(showAddEditModal := false), usersRes, foldersRes)
                         else old(State())
    {
      if isEditMode {
        request := UpdateUser(form);
      } else {
        request := CreateUser(form);
      }
      if postOk {
        showAddEditModal := false;
        FetchData(usersRes, foldersRes);
      }
    }

    /** `handleDeleteUser`: with no user chosen the property access throws
        before any request and the error is only logged; otherwise the
        user's id is deleted and, on success, the dialog closes and the
        roster is refreshed. */
    method HandleDeleteUser(postOk: bool, usersRes: Option<seq<User>>, foldersRes: Option<seq<Folder>>)
      returns (request: Option<Request>)
      requires Valid()
      modifies this
      ensures Valid()
      ensures old(selectedUser).None? ==> request == None && State() == old(State())
      ensures old(selectedUser).Some? ==> request == Some(DeleteUser(old(selectedUser).value.userId))
      ensures old(selectedUser).Some? ==>
                State() == if postOk then Refreshed(old(State()).(showDeleteModal := false), usersRes, foldersRes)
                           else old(State())
    {
      if selectedUser.None? {
        request := None;
        return;
      }
      request := Some(DeleteUser(selectedUser.value.userId));
      if postOk {
        showDeleteModal := false;
        FetchData(usersRes, foldersRes);
      }
    }

    /** `callUsersNow`: one batch request carrying exactly the given ids;
        refresh only when it succeeds. */
    method CallUsersNow(userIds: seq<UserId>, postOk: bool,
                        usersRes: Option<seq<User>>, foldersRes: Option<seq<Folder>>)
      returns (request: Request)
      requires Valid()
      modifies this
      ensures Valid()
      ensures request == BatchCall(userIds)
      ensures State() == if postOk then Refreshed(old(State()), usersRes, foldersRes) else old(State())
    {
      request := BatchCall(userIds);
      if postOk {
        FetchData(usersRes, foldersRes);
      }
    }

    /** `callUsersInBatch`: one scheduling request carrying exactly the
        given ids and time; refresh only when it succeeds. */
    method CallUsersInBatch(userIds: seq<UserId>, scheduleTime: string, postOk: bool,
                            usersRes: Option<seq<User>>, foldersRes: Option<seq<Folder>>)
      returns (request: Request)
      requires Valid()
      modifies this
      ensures Valid()
      ensures request == ScheduleBatchCall(userIds, scheduleTime)
      ensures State() == if postOk then Refreshed(old(State()), usersRes, foldersRes) else old(State())
    {
      request := ScheduleBatchCall(userIds, scheduleTime);
      if postOk {
        FetchData(usersRes, foldersRes);
      }
    }

    /** The confirm dialog's "Confirm": the call is started with the
        current selection and the dialog closes at once, whatever the
        outcome. */
    method ConfirmCall(postOk: bool, usersRes: Option<seq<User>>, foldersRes: Option<seq<Folder>>)
      returns (request: Request)
      requires Valid()
      modifies this
      ensures Valid()
      ensures request == BatchCall(old(selectedUserIds))
      ensures State() == if postOk then Refreshed(old(State()).(showConfirmCallModal := false), usersRes, foldersRes)
                         else old(State()).(showConfirmCallModal := false)
    {
      var ids := selectedUserIds;
      showConfirmCallModal := false;
      request := CallUsersNow(ids, postOk, usersRes, foldersRes);
    }

    /** The schedule dialog's "Schedule": the same for a scheduled batch. */
    method ConfirmSchedule(dateTime: string, postOk: bool,
                           usersRes: Option<seq<User>>, foldersRes: Option<seq<Folder>>)
      returns (request: Request)
      requires Valid()
      modifies this
      ensures Valid()
      ensures request == ScheduleBatchCall(old(selectedUserIds), dateTime)
      ensures State() == if postOk then Refreshed(old(State()).(showScheduleModal := false), usersRes, foldersRes)
                         else old(State()).(showScheduleModal := false)
    {
      var ids := selectedUserIds;
      showScheduleModal := false;
      request := CallUsersInBatch(ids, dateTime, postOk, usersRes, foldersRes);
    }
  }

  /** Two users in folders "1" and "2": checking A in folder 1's view and
      switching to folder 2's view keeps A selected on both sides, and the
      length-based sync ticks "select all" although B is unchecked. */
  method FolderSwitchKeepsSelection()
  {
    var a := User("A", "Ann", "+10", Some("1"), None);
    var b := User("B", "Bob", "+20", Some("2"), None);
    var page := new Page();
    page.FetchData(Some([a, b]), Some([Folder("1", "one"), Folder("2", "two")]));
    page.FilterUsers("1");
    assert page.filteredUsers == [a] by {
      assert [a, b][1..] == [b] && [b][1..] == [];
      assert FolderMembers([b], "1") == FolderMembers([], "1") == [];
      assert FolderMembers([a, b], "1") == [a] + FolderMembers([b], "1");
    }
    var table := new UsersTable.Table(page.filteredUsers);
    table.HandleCheckboxChange("A");
    var sent := table.SelectionEffects(true);
    page.HandleSelectionChange(sent.value);
    page.FilterUsers("2");
    assert page.filteredUsers == [b] by {
      assert [a, b][1..] == [b] && [b][1..] == [];
      assert FolderMembers([b], "2") == [b] + FolderMembers([], "2") == [b];
      assert FolderMembers([a, b], "2") == FolderMembers([b], "2");
    }
    table.ReceiveUsers(page.filteredUsers);
    assert table.selectedUserIds == ["A"] && page.selectedUserIds == ["A"];
    assert table.selectAll && "B" !in table.selectedUserIds;
  }
}
