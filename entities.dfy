/** The record type shared by the card and the home list. */
module Entities {

  /** One food-inventory entry. `uuid` is its identity and also names its photo on disk. */
  datatype FoodInfo = FoodInfo(
    foodName: string,
    productionDate: string,
    shelfLife: string,
    expirationDate: string,
    uuid: string,
    tips: string,
    foodType: string)
}
