/** The configuration object a site is built with. Its identity matters: a
    cached template is reused only under the very same configuration object. */
module Configs {

  class Config {
    const layoutsDirectory: string
    const postTypes: seq<string>
    const taxonomyTypes: seq<string>
    const includeDrafts: bool
    const excludeFiles: seq<string>
    const includeFiles: seq<string>
    const excludePlugins: seq<string>
    const destination: string

    constructor (layoutsDirectory: string, postTypes: seq<string>, taxonomyTypes: seq<string>,
                 includeDrafts: bool, excludeFiles: seq<string>, includeFiles: seq<string>,
                 excludePlugins: seq<string>, destination: string)
      ensures this.layoutsDirectory == layoutsDirectory && this.postTypes == postTypes
      ensures this.taxonomyTypes == taxonomyTypes && this.includeDrafts == includeDrafts
      ensures this.excludeFiles == excludeFiles && this.includeFiles == includeFiles
      ensures this.excludePlugins == excludePlugins && this.destination == destination
    {
      this.layoutsDirectory := layoutsDirectory;
      this.postTypes := postTypes;
      this.taxonomyTypes := taxonomyTypes;
      this.includeDrafts := includeDrafts;
      this.excludeFiles := excludeFiles;
      this.includeFiles := includeFiles;
      this.excludePlugins := excludePlugins;
      this.destination := destination;
    }
  }
}
