/** Node and edge kinds of the share graph. One constructor stands for one kind string. */
module Kinds {

  datatype NodeKind = NetworkShareHost | NetworkShareSMB | File | Directory

  /** Share-level rights, the keys of the share mapping table. */
  datatype ShareRight =
    | CanDsCreateChild | CanDsDeleteChild | CanDsListContents | CanDsWriteExtendedProperties
    | CanDsReadProperty | CanDsWriteProperty | CanDsDeleteTree | CanDsListObject | CanDsControlAccess
    | CanDelete | CanReadControl | CanWriteDacl | CanWriteOwner
    | CanGenericAll | CanGenericExecute | CanGenericWrite | CanGenericRead
    | CanShareRead | CanShareWrite | CanShareExecute

  /** NTFS-level rights, the keys of the NTFS mapping table. */
  datatype NtfsRight =
    | CanNTFSGenericRead | CanNTFSGenericWrite | CanNTFSGenericExecute | CanNTFSGenericAll
    | CanNTFSAccessSystemSecurity | CanNTFSSynchronize | CanNTFSWriteOwner | CanNTFSWriteDacl
    | CanNTFSReadControl | CanNTFSDelete
    | CanNTFSReadData | CanNTFSWriteData | CanNTFSAppendData | CanNTFSReadEA | CanNTFSWriteEA
    | CanNTFSExecute | CanNTFSDeleteChild | CanNTFSReadAttributes | CanNTFSWriteAttributes

  /** What CanEffectiveRead, CanEffectiveWrite and CanEffectiveExecute promise. */
  datatype Access = Read | Write | Execute

  datatype EdgeKind =
    | HostsNetworkShare
    | HasNetworkShare
    | Contains
    | OnShare(share: ShareRight)
    | OnNtfs(ntfs: NtfsRight)
    | CanEffective(access: Access)
}
