/** Owner references (src/utils.rs): `ObjectMetaI2GExt::add_owner` links a generated route to
    the Ingress it came from, at most once per owner uid. */
module Owners {
  import opened Wrappers

  /** `OwnerReference`, with the fields `add_owner` sets. */
  datatype OwnerReference = OwnerReference(
    apiVersion: string,
    kind: string,
    name: string,
    uid: string,
    controller: Option<bool>,
    blockOwnerDeletion: Option<bool>)

  /** What `add_owner` reads from the owning object: its type's apiVersion and kind, its name
      and its (optional) uid. */
  datatype Owner = Owner(apiVersion: string, kind: string, name: string, uid: Option<string>)

  /** The reference `add_owner` builds. The uid is unwrapped, so an owner without one panics. */
  function ReferenceTo(owner: Owner): OwnerReference
    requires owner.uid.Some?
  {
    OwnerReference(owner.apiVersion, owner.kind, owner.name, owner.uid.value, None, Some(false))
  }

  /** Some reference in `refs` carries `uid`. */
  predicate HasUid(refs: seq<OwnerReference>, uid: string) {
    exists i :: 0 <= i < |refs| && refs[i].uid == uid
  }

  /** No two references share a uid. */
  predicate UniqueUids(refs: seq<OwnerReference>) {
    forall i, j :: 0 <= i < j < |refs| ==> refs[i].uid != refs[j].uid
  }

  /** The list after `add_owner`: unchanged when the uid is already there, else the new
      reference appended at the end. */
  function WithOwner(refs: seq<OwnerReference>, ref: OwnerReference): (r: seq<OwnerReference>)
    ensures HasUid(r, ref.uid)
    ensures |r| == if HasUid(refs, ref.uid) then |refs| else |refs| + 1
    ensures r[..|refs|] == refs
    ensures |r| > |refs| ==> r[|refs|] == ref
    ensures UniqueUids(refs) ==> UniqueUids(r)
  {
    if HasUid(refs, ref.uid) then refs
    else
      var r := refs + [ref];
      assert r[|refs|] == ref;
      r
  }

  /** Adding the same owner twice is the same as adding it once. */
  lemma WithOwnerIdempotent(refs: seq<OwnerReference>, ref: OwnerReference)
    ensures WithOwner(WithOwner(refs, ref), ref) == WithOwner(refs, ref)
  {
  }

  /** The metadata of a generated object, reduced to the field `add_owner` updates. */
  class ObjectMeta {
    var ownerReferences: Option<seq<OwnerReference>>

    constructor(ownerReferences: Option<seq<OwnerReference>>)
      ensures this.ownerReferences == ownerReferences
    {
      this.ownerReferences := ownerReferences;
    }

    /** `add_owner`: take the list out (none counts as empty), and put it back with the
        owner's reference appended unless one with the same uid is already there. */
    method AddOwner(owner: Owner)
      requires owner.uid.Some?
      modifies this
      ensures ownerReferences == Some(WithOwner(old(ownerReferences).GetOr([]), ReferenceTo(owner)))
      ensures HasUid(ownerReferences.value, owner.uid.value)
      ensures HasUid(old(ownerReferences).GetOr([]), owner.uid.value) ==> ownerReferences == Some(old(ownerReferences).GetOr([]))
    {
      var owners := ownerReferences.GetOr([]);
      ownerReferences := None;
      var reference := ReferenceTo(owner);
      if HasUid(owners, reference.uid) {
        ownerReferences := Some(owners);
        return;
      }
      owners := owners + [reference];
      ownerReferences := Some(owners);
    }
  }

  /** A second `add_owner` with the same owner changes nothing. */
  method AddOwnerTwice(meta: ObjectMeta, owner: Owner)
    requires owner.uid.Some?
    modifies meta
    ensures meta.ownerReferences == Some(WithOwner(old(meta.ownerReferences).GetOr([]), ReferenceTo(owner)))
  {
    meta.AddOwner(owner);
    ghost var once := meta.ownerReferences;
    meta.AddOwner(owner);
    assert meta.ownerReferences == once;
  }
}
