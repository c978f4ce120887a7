/** The records the console receives from the remote directory service,
    reduced to the fields the modelled components read. */
module Records {
  import opened Wrappers

  type UserId = string
  type FolderId = string

  /** A user record from `GET /user/all`. `folder_id` and `call_status` may
      be missing (JavaScript `null`/`undefined`), hence the options. */
  datatype User = User(
    userId: UserId,
    name: string,
    phone: string,
    folderId: Option<FolderId>,
    callStatus: Option<string>)

  /** A folder record from `GET /folder/all`. */
  datatype Folder = Folder(folderId: FolderId, folderName: string)

  /** The body the add/edit form hands to the save handler. */
  datatype UserForm = UserForm(userId: string, name: string, phone: string, folderId: string)
}
