/**
 * The decoded metadata the tool inspects and rewrites: the node identity, the manifest and the
 * global metadata with its templates, index definitions and custom blocks. Collections that the
 * library keeps in maps are sequences in the map's iteration order. Parts of a record that the
 * tool only hands to a library encoder are kept as an opaque `definition`.
 */
module ClusterMetaData {
  import opened Wrappers

  /** An index as named in the cluster: its name and its UUID. */
  datatype IndexRef = IndexRef(name: string, uuid: string)

  /** The node identity file; a version is its int id. */
  datatype NodeMetaData = NodeMetaData(nodeId: string, nodeVersion: int)

  /** One entry of the manifest's index-generation map. */
  datatype IndexGeneration = IndexGeneration(index: IndexRef, generation: int)

  datatype Manifest = Manifest(
    currentTerm: int,
    clusterStateVersion: int,
    globalGeneration: int,
    indexGenerations: seq<IndexGeneration>)

  /** Index settings: flat keys to their string values. */
  type Settings = map<string, string>

  datatype Template = Template(name: string, definition: string)

  datatype IndexMetaData = IndexMetaData(index: IndexRef, settings: Settings, definition: string)

  datatype Custom = Custom(definition: string)

  /** One entry of the customs map: the type tag and its block. */
  datatype CustomEntry = CustomEntry(typeTag: string, custom: Custom)

  /** The coordination metadata; the voting configurations as their printed form. */
  datatype Coordination = Coordination(
    term: int,
    lastCommittedConfig: string,
    lastAcceptedConfig: string,
    votingConfigExclusions: string)

  datatype MetaData = MetaData(
    clusterUUID: string,
    clusterUUIDCommitted: bool,
    version: int,
    coordination: Coordination,
    persistentSettings: Settings,
    transientSettings: Settings,
    hashesOfConsistentSettings: map<string, string>,
    templates: seq<Template>,
    indices: seq<IndexMetaData>,
    customs: seq<CustomEntry>)

  /**
   * The library's renderings, which the model leaves uninterpreted: the toString forms of an
   * index, a version and the settings maps, and the JSON encodings, each of which may fail (None).
   */
  datatype Codec = Codec(
    indexText: IndexRef -> string,
    versionText: int -> string,
    settingsText: Settings -> string,
    hashesText: map<string, string> -> string,
    templateJson: Template -> Option<string>,
    indexJson: IndexMetaData -> Option<string>,
    customJson: Custom -> Option<string>)
}
