/** The part of the configuration that tasks read; addresses are already parsed. */
module Config {
  import opened Bytes

  datatype VersionConfig = VersionConfig(
    name: string,
    dataStore: Address,
    roleStore: Address,
    usdt: Address,
    vaults: map<string, Address>,
    markets: map<string, Address>,
    handlers: map<string, Address>)
}
