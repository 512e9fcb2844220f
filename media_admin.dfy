/** `MediaFileAdmin`: the media library of the panel. */
module MediaAdmin {
  import opened Wrappers
  import opened Seqs
  import opened TenantModels
  import opened MediaModels
  import opened Requests
  import opened AdminScope

  function MediaOwner(f: MediaFile): Option<nat> { Some(f.tenant) }

  /** `get_queryset`'s single test `not request.user.is_superuser and hasattr(request, 'tenant')`. */
  function MediaScope(user: Visitor, attr: TenantAttr): Scope
  {
    if !IsSuperuser(user) && attr.Resolved? then OnlyTenant(TenantIdOf(attr.tenant)) else Everything
  }

  /** The combined test scopes exactly like the nested tests of the other admin classes. */
  lemma MediaScopeMatchesOtherAdmins(user: Visitor, attr: TenantAttr)
    ensures MediaScope(user, attr) == ScopeOf(user, attr)
  {
  }

  /** `MediaFileAdmin.get_queryset`, newest first under the model's `-created_at` ordering. */
  function MediaQueryset(files: seq<MediaFile>, user: Visitor, attr: TenantAttr): (r: seq<MediaFile>)
    ensures Subseq(r, Reverse(files))
    ensures IsSuperuser(user) || attr.Unset? ==> r == Reverse(files)
    ensures !IsSuperuser(user) && attr.Resolved? ==>
      forall f :: f in r <==> f in files && attr.tenant.Some? && f.tenant == attr.tenant.value.id
  {
    ReverseMembership(files);
    Scoped(Reverse(files), MediaScope(user, attr), MediaOwner)
  }

  /**
   * `MediaFileAdmin.save_model`: with a file its size is recorded, then on create the request's
   * tenant replaces the form's. `None` when the insert must fail for want of a tenant.
   */
  function SaveMediaFile(obj: MediaFile, change: bool, attr: TenantAttr): (r: Option<MediaFile>)
    ensures r.None? <==> !change && attr == Resolved(None)
    ensures r.Some? ==> r.value == obj.(fileSize := r.value.fileSize, tenant := r.value.tenant)
    ensures r.Some? ==> r.value.fileSize == if HasFile(obj.file) then obj.file.size else obj.fileSize
    ensures r.Some? ==> Some(r.value.tenant) == SavedTenant(obj.tenant, change, attr)
  {
    var sized := if HasFile(obj.file) then obj.(fileSize := obj.file.size) else obj;
    var t := SavedTenant(obj.tenant, change, attr);
    if t.Some? then Some(sized.(tenant := t.value)) else None
  }

  /** Saving again records nothing new: the size and the tenant are already in place. */
  lemma SaveMediaFileIdempotent(obj: MediaFile, change: bool, attr: TenantAttr)
    requires SaveMediaFile(obj, change, attr).Some?
    ensures SaveMediaFile(SaveMediaFile(obj, change, attr).value, true, attr) == SaveMediaFile(obj, change, attr)
  {
  }

  /** A file uploaded in the panel heads its uploader's newest-first list; the rest is unchanged. */
  lemma UploadedFileIsListed(files: seq<MediaFile>, user: Visitor, attr: TenantAttr, obj: MediaFile)
    requires SaveMediaFile(obj, false, attr).Some?
    ensures var saved := SaveMediaFile(obj, false, attr).value;
      MediaQueryset(files + [saved], user, attr) == [saved] + MediaQueryset(files, user, attr)
  {
    var saved := SaveMediaFile(obj, false, attr).value;
    MediaScopeMatchesOtherAdmins(user, attr);
    ReverseAppend(files, saved);
    ScopedPrepend(saved, Reverse(files), MediaScope(user, attr), MediaOwner);
    CreatedObjectInScope(user, attr, obj.tenant);
  }
}
