/**
 * The user-management page: the create dialog with its new-user form, the edit dialog
 * with the selected profile and its form, and the badge each role is shown with. The
 * answers of the users hook (`{ success, error }`) are inputs.
 */
module UserManagement {
  import opened Common

  datatype Role = Admin | Editor | Viewer

  /** The role as the profile row stores it. */
  function RoleName(r: Role): string
  {
    match r
    case Admin => "admin"
    case Editor => "editor"
    case Viewer => "viewer"
  }

  /** A row of `profiles` as the page reads it. */
  datatype Profile = Profile(userId: string, email: string, fullName: Option<string>, role: Role)

  datatype NewUserForm = NewUserForm(email: string, password: string, fullName: string, role: Role)
  datatype EditForm = EditForm(fullName: string, role: Role)

  /** The requests the page hands to the users hook. */
  datatype Request =
    | CreateRequest(email: string, password: string, fullName: string, role: Role)
    | UpdateRequest(userId: string, fullName: string, role: Role)

  /** What the hook answers. */
  datatype HookResult = Succeeded | FailedWith(message: string)

  const EmptyNewUser: NewUserForm := NewUserForm("", "", "", Viewer)

  /** `getRoleBadgeVariant(role)` */
  function RoleBadgeVariant(role: string): (variant: string)
    ensures role == "admin" ==> variant == "destructive"
    ensures role == "editor" ==> variant == "default"
    ensures role == "viewer" ==> variant == "secondary"
    ensures role !in {"admin", "editor", "viewer"} ==> variant == "outline"
  {
    match role
    case "admin" => "destructive"
    case "editor" => "default"
    case "viewer" => "secondary"
    case _ => "outline"
  }

  /** The three roles have three different badges, none of them the fallback. */
  lemma BadgesOfRoles(r: Role, s: Role)
    ensures RoleBadgeVariant(RoleName(r)) != "outline"
    ensures RoleBadgeVariant(RoleName(r)) == RoleBadgeVariant(RoleName(s)) <==> r == s
  {
  }

  /** The page's state cells. */
  class UserManagementPage {
    var createDialogOpen: bool
    var editDialogOpen: bool
    var selected: Option<Profile>
    var newUser: NewUserForm
    var editUser: EditForm

    constructor ()
      ensures !createDialogOpen && !editDialogOpen && selected.None?
      ensures newUser == EmptyNewUser && editUser == EditForm("", Viewer)
    {
      createDialogOpen, editDialogOpen := false, false;
      selected := None;
      newUser := EmptyNewUser;
      editUser := EditForm("", Viewer);
    }

    /**
     * `handleCreateUser`: an empty email, password or full name is refused before any
     * request. On success the form returns to its empty `viewer` state and the dialog
     * closes; on failure both are kept.
     */
    method HandleCreateUser(result: HookResult) returns (request: Option<Request>)
      modifies this
      ensures request.Some? <==> old(newUser.email) != "" && old(newUser.password) != "" && old(newUser.fullName) != ""
      ensures request.Some? ==>
        request.value == CreateRequest(old(newUser.email), old(newUser.password), old(newUser.fullName), old(newUser.role))
      ensures request.Some? && result.Succeeded? ==> newUser == EmptyNewUser && !createDialogOpen
      ensures !(request.Some? && result.Succeeded?) ==> newUser == old(newUser) && createDialogOpen == old(createDialogOpen)
      ensures editDialogOpen == old(editDialogOpen) && selected == old(selected) && editUser == old(editUser)
    {
      if newUser.email == "" || newUser.password == "" || newUser.fullName == "" {
        return None;
      }
      request := Some(CreateRequest(newUser.email, newUser.password, newUser.fullName, newUser.role));
      if result.Succeeded? {
        newUser := EmptyNewUser;
        createDialogOpen := false;
      }
    }

    /**
     * `handleEditUser`: without a selected profile nothing happens. Otherwise exactly
     * the form's full name and role are sent for the selected user; on success the
     * dialog closes and the selection is cleared.
     */
    method HandleEditUser(result: HookResult) returns (request: Option<Request>)
      modifies this
      ensures request.Some? <==> old(selected).Some?
      ensures request.Some? ==> request.value == UpdateRequest(old(selected).value.userId, old(editUser.fullName), old(editUser.role))
      ensures request.Some? && result.Succeeded? ==> !editDialogOpen && selected.None?
      ensures !(request.Some? && result.Succeeded?) ==> editDialogOpen == old(editDialogOpen) && selected == old(selected)
      ensures createDialogOpen == old(createDialogOpen) && newUser == old(newUser) && editUser == old(editUser)
    {
      if selected.None? {
        return None;
      }
      request := Some(UpdateRequest(selected.value.userId, editUser.fullName, editUser.role));
      if result.Succeeded? {
        editDialogOpen := false;
        selected := None;
      }
    }

    /** `openEditDialog(user)`: the form takes the user's name (or `''`) and role. */
    method OpenEditDialog(user: Profile)
      modifies this
      ensures selected == Some(user) && editDialogOpen
      ensures editUser == EditForm(if user.fullName.Some? then user.fullName.value else "", user.role)
      ensures createDialogOpen == old(createDialogOpen) && newUser == old(newUser)
    {
      selected := Some(user);
      editUser := EditForm(if user.fullName.Some? then user.fullName.value else "", user.role);
      editDialogOpen := true;
    }
  }
}
