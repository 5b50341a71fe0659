// SpatiallyNestable: the identity and parent-link fields of an object that
// may be positioned relative to a parent, with their inline accessors.

module Nestable {

  /** A QUuid, read as its 128-bit value. */
  newtype Uuid = x: int | 0 <= x < 0x1_0000_0000_0000_0000_0000_0000_0000_0000

  /** The null QUuid that a default-constructed QUuid holds. */
  const NullUuid: Uuid := 0

  /** quint16: a parent joint index, 0 to 65535. */
  newtype JointIndex = x: int | 0 <= x < 0x1_0000

  datatype Vec3 = Vec3(x: real, y: real, z: real)
  datatype Quat = Quat(w: real, x: real, y: real, z: real)

  /** Translation, rotation and scale relative to the parent's frame. */
  datatype Transform = Transform(translation: Vec3, rotation: Quat, scale: Vec3)

  /** What Transform's default constructor yields. */
  const IdentityTransform: Transform :=
    Transform(Vec3(0.0, 0.0, 0.0), Quat(1.0, 0.0, 0.0, 0.0), Vec3(1.0, 1.0, 1.0))

  class SpatiallyNestable {
    var id: Uuid
    /** What this object's transform is relative to. */
    var parentID: Uuid
    /** Which joint of the parent this object is relative to. */
    var parentJointIndex: JointIndex
    var transform: Transform

    /** The id and parent id start out null; the joint index is left as it happens to be. */
    constructor ()
      ensures GetID() == NullUuid && GetParentID() == NullUuid
      ensures transform == IdentityTransform
    {
      id := NullUuid;
      parentID := NullUuid;
      parentJointIndex := *;
      transform := IdentityTransform;
    }

    /** The given id; a null parent id; the joint index is left as it happens to be. */
    constructor WithId(id: Uuid)
      ensures GetID() == id && GetParentID() == NullUuid
      ensures transform == IdentityTransform
    {
      this.id := id;
      parentID := NullUuid;
      parentJointIndex := *;
      transform := IdentityTransform;
    }

    function GetID(): Uuid
      reads this
    {
      id
    }

    method SetID(id: Uuid)
      modifies this`id
      ensures GetID() == id
    {
      this.id := id;
    }

    function GetParentID(): Uuid
      reads this
    {
      parentID
    }

    /** Stores the id only: the parent is not looked up, checked for cycles or re-based. */
    method SetParentID(parentID: Uuid)
      modifies this`parentID
      ensures GetParentID() == parentID
      ensures GetID() == old(GetID()) && GetParentJointIndex() == old(GetParentJointIndex())
      ensures transform == old(transform)
    {
      this.parentID := parentID;
    }

    function GetParentJointIndex(): JointIndex
      reads this
    {
      parentJointIndex
    }

    method SetParentJointIndex(parentJointIndex: JointIndex)
      modifies this`parentJointIndex
      ensures GetParentJointIndex() == parentJointIndex
    {
      this.parentJointIndex := parentJointIndex;
    }
  }
}
