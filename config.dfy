/** The mod's user settings (`ModConfig`), read-only to the core. */
module Config {

  datatype ModConfig = ModConfig(
    enableStackSplitRedux: bool,
    enableStackSplitInCrafting: bool,
    enableStackSplitInShop: bool,
    maxStackingNumber: int,
    defaultCraftingAmount: int,
    defaultShopAmount: int,
    debuggingMode: bool)

  /** The settings a fresh installation starts with. */
  const Defaults := ModConfig(
    enableStackSplitRedux := true,
    enableStackSplitInCrafting := true,
    enableStackSplitInShop := true,
    maxStackingNumber := 999,
    defaultCraftingAmount := 1,
    defaultShopAmount := 5,
    debuggingMode := false)
}
