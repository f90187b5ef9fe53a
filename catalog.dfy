/**
 * The three-level category structure the extractors produce (master ->
 * category -> type category), with its member names as in the JSON output:
 * "category_name_en", "category_name_cn", "category_description",
 * "data_type", and per type category "type_category_name_en",
 * "type_category_name_cn", "type_category_description".
 */
module Catalog {

  datatype TypeCategory = TypeCategory(nameEn: string, nameCn: string, description: string)

  datatype Category = Category(nameEn: string, nameCn: string, description: string, dataType: seq<TypeCategory>)
}
