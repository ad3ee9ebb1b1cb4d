/** The home screen's state holder: one observable snapshot of the record list. */
module HomeViewModel {
  import opened Entities

  /** The record the list starts with before anything is loaded. */
  const Placeholder: FoodInfo :=
    FoodInfo("FoodName1", "2022-02-02", "CXasdfasdfasdfasdfaK", "7dayfs", "uuid", "", "")

  class HomeViewModel {
    /** The current snapshot; each update stores a new one. */
    var foodInfoList: seq<FoodInfo>

    constructor ()
      ensures foodInfoList == [Placeholder]
    {
      foodInfoList := [Placeholder];
    }

    /**
     * `updateList(value)`: copy the snapshot, add `value` to the copy and publish it.
     * There is no uniqueness check: a record already present is added again.
     */
    method UpdateListAppend(value: FoodInfo)
      modifies this
      ensures foodInfoList == old(foodInfoList) + [value]
      ensures |foodInfoList| == |old(foodInfoList)| + 1
      ensures foodInfoList[|foodInfoList| - 1] == value
      ensures foodInfoList[..|old(foodInfoList)|] == old(foodInfoList)
      ensures multiset(foodInfoList)[value] == multiset(old(foodInfoList))[value] + 1
    {
      var copy := foodInfoList;
      copy := copy + [value];
      foodInfoList := copy;
    }

    /** `updateList(list)`: the snapshot becomes `list`, whatever it held before. */
    method UpdateListReplace(list: seq<FoodInfo>)
      modifies this
      ensures foodInfoList == list
    {
      foodInfoList := list;
    }
  }
}
